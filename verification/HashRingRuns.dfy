/** Minimal disruption and agreement: how routing changes when nodes come and go, and that servers agree. */
module HashRingRuns {
  import opened Ids
  import opened HashRing

  // ---------------------------------------------------------------- adding a node

  lemma SortMembers(q: seq<Hash>, h: Hash)
    ensures h in Sort(q) <==> h in q
  {
    SortSorts(q);
    assert h in multiset(Sort(q)) <==> h in multiset(q);
  }

  /** After adding a node every key keeps its owner or moves to that node; collisions make no difference. */
  lemma AddMovesOnlyToNewNode(r: Ring, points: seq<Hash>, n: NodeId, h: Hash, before: NodeId, after: NodeId)
    requires RoutesTo(r, h, before) && RoutesTo(Add(r, points, n), h, after)
    ensures after == before || after == n
  {
    var all := r.points + points;
    var r' := Add(r, points, n);
    forall p ensures p in r'.points <==> p in r.points || p in points { SortMembers(all, p); }
    assert r.points != [] ==> r.points[0] in r'.points;
    if r'.points != [] {
      var p :| First(r'.points, h, p) && r'.Owner(p) == after;
      if p !in points {
        assert First(r.points, h, p);
        assert RoutesTo(r, h, r.Owner(p));
        RouteIsUnique(r, h, before, r.Owner(p));
      }
    }
  }

  // ---------------------------------------------------------------- removing a node

  /** Owners other than the removed node are kept, in the ring and in the map. */
  lemma {:induction false} StripKeepsOthers(r: Ring, n: NodeId, p: Hash)
    ensures r.Owner(p) != n ==> Strip(r, n).Owner(p) == r.Owner(p) && (p in Strip(r, n).owners <==> p in r.owners)
    ensures r.Owner(p) != n && p in r.points ==> p in Strip(r, n).points
    ensures p in Strip(r, n).owners ==> p in r.owners && Strip(r, n).owners[p] == r.owners[p]
    decreases |r.points|
  {
    if r.points != [] {
      var h, rest := r.points[0], r.points[1..];
      StripKeepsOthers(Ring(rest, r.owners), n, p);
      StripKeepsOthers(Ring(rest, r.owners - {h}), n, p);
    }
  }

  /** After removing a node every key that it did not own keeps its owner, on any ring whatever. */
  lemma RemoveKeepsOtherKeys(r: Ring, n: NodeId, h: Hash, before: NodeId, after: NodeId)
    requires RoutesTo(r, h, before) && before != n && RoutesTo(Strip(r, n), h, after)
    ensures after == before
  {
    var r' := Strip(r, n);
    if r.points != [] {
      var p :| First(r.points, h, p) && r.Owner(p) == before;
      StripKeepsOthers(r, n, p);
      StripKeepsSorted(r, n);
      assert First(r'.points, h, p);
      assert RoutesTo(r', h, before);
      RouteIsUnique(r', h, before, after);
    }
  }

  /** No point left belongs to the removed node, so no key is routed to it. */
  lemma {:induction false} StripLeavesNone(r: Ring, n: NodeId, p: Hash)
    requires n != NO_NODE
    ensures p in Strip(r, n).points ==> Strip(r, n).Owner(p) != n
    decreases |r.points|
  {
    if r.points != [] {
      var h, rest := r.points[0], r.points[1..];
      StripLeavesNone(Ring(rest, r.owners), n, p);
      StripLeavesNone(Ring(rest, r.owners - {h}), n, p);
      StripKeepsOthers(Ring(rest, r.owners), n, h);
    }
  }

  lemma RemovedNodeGetsNoKey(r: Ring, n: NodeId, h: Hash)
    requires n != NO_NODE
    ensures !RoutesTo(Strip(r, n), h, n)
  {
    if RoutesTo(Strip(r, n), h, n) {
      var p :| First(Strip(r, n).points, h, p) && Strip(r, n).Owner(p) == n;
      StripLeavesNone(r, n, p);
      assert false;
    }
  }

  /** A ring point without an owner entry. */
  predicate Dangles(r: Ring, p: Hash) {
    p in r.points && p !in r.owners
  }

  /** Removing a node leaves a point dangling exactly where the node owned a duplicated point. */
  lemma {:induction false} RemoveDanglesIff(r: Ring, n: NodeId, p: Hash)
    requires n != NO_NODE
    ensures Dangles(Strip(r, n), p)
       <==> Dangles(r, p) || (r.Owner(p) == n && multiset(r.points)[p] >= 2)
    decreases |r.points|
  {
    if r.points != [] {
      var h, rest := r.points[0], r.points[1..];
      assert r.points == [h] + rest;
      assert p in rest <==> multiset(rest)[p] >= 1;
      RemoveDanglesIff(Ring(rest, r.owners), n, p);
      RemoveDanglesIff(Ring(rest, r.owners - {h}), n, p);
      StripKeepsOthers(Ring(rest, r.owners), n, p);
    }
  }

  // ---------------------------------------------------------------- agreement

  function PointOf(hash: string -> Hash, n: NodeId, i: nat): Hash {
    hash(VirtualKey(n, i))
  }

  /** All virtual nodes of all nodes hash to different points. */
  ghost predicate Distinct(hash: string -> Hash, v: nat, ns: set<NodeId>) {
    forall n, i: nat, m, j: nat ::
      n in ns && m in ns && i < v && j < v && PointOf(hash, n, i) == PointOf(hash, m, j) ==> n == m && i == j
  }

  /** No two of the nodes' keys collide: all that `Distinct` takes, for the keys themselves always differ. */
  ghost predicate NoCollision(hash: string -> Hash, v: nat, ns: set<NodeId>) {
    forall n, i: nat, m, j: nat ::
      n in ns && m in ns && i < v && j < v && VirtualKey(n, i) != VirtualKey(m, j) ==> PointOf(hash, n, i) != PointOf(hash, m, j)
  }

  lemma DistinctIffNoCollision(hash: string -> Hash, v: nat, ns: set<NodeId>)
    ensures Distinct(hash, v, ns) <==> NoCollision(hash, v, ns)
  {
    if NoCollision(hash, v, ns) {
      forall n, i: nat, m, j: nat | n in ns && m in ns && i < v && j < v && PointOf(hash, n, i) == PointOf(hash, m, j)
        ensures n == m && i == j
      {
        VirtualKeysDiffer(n, i, m, j);
      }
    }
  }

  /** The ring of a set of nodes: sorted, each point once, each owned by its node. */
  ghost predicate Represents(r: Ring, hash: string -> Hash, v: nat, ns: set<NodeId>) {
    && Sorted(r.points) && NoRepeats(r.points)
    && (forall p :: p in r.points <==> p in r.owners)
    && (forall n, i: nat :: n in ns && i < v ==>
          PointOf(hash, n, i) in r.owners && r.owners[PointOf(hash, n, i)] == n)
    && (forall p :: p in r.owners ==> exists i: nat :: r.owners[p] in ns && i < v && PointOf(hash, r.owners[p], i) == p)
  }

  lemma {:induction false} NoRepeatsCount(q: seq<Hash>, h: Hash)
    requires NoRepeats(q)
    ensures multiset(q)[h] == if h in q then 1 else 0
    decreases |q|
  {
    if q != [] {
      var front, last := q[..|q| - 1], q[|q| - 1];
      assert q == front + [last];
      NoRepeatsCount(front, h);
    }
  }

  /** Ring and owner map are determined by the set of nodes. */
  lemma RepresentationIsUnique(r: Ring, r': Ring, hash: string -> Hash, v: nat, ns: set<NodeId>)
    requires Represents(r, hash, v, ns) && Represents(r', hash, v, ns)
    ensures r == r'
  {
    OwnersIncluded(r, r', hash, v, ns);
    OwnersIncluded(r', r, hash, v, ns);
    assert r.owners == r'.owners;
    forall p ensures multiset(r.points)[p] == multiset(r'.points)[p] {
      NoRepeatsCount(r.points, p);
      NoRepeatsCount(r'.points, p);
    }
    assert multiset(r.points) == multiset(r'.points);
    SortedUnique(r.points, r'.points);
  }

  lemma OwnersIncluded(r: Ring, r': Ring, hash: string -> Hash, v: nat, ns: set<NodeId>)
    requires Represents(r, hash, v, ns) && Represents(r', hash, v, ns)
    ensures forall p :: p in r.owners ==> p in r'.owners && r.owners[p] == r'.owners[p]
  {
  }

  lemma PointsOf(hash: string -> Hash, n: NodeId, v: nat)
    ensures forall p :: p in Points(hash, n, v) <==> exists i: nat :: i < v && PointOf(hash, n, i) == p
  {
    var points := Points(hash, n, v);
    forall p ensures p in points <==> exists i: nat :: i < v && PointOf(hash, n, i) == p {
      if p in points {
        var i :| 0 <= i < |points| && points[i] == p;
        assert PointOf(hash, n, i) == p;
      }
      if i: nat :| i < v && PointOf(hash, n, i) == p {
        assert points[i] == p;
      }
    }
  }

  lemma PointsNoRepeats(hash: string -> Hash, n: NodeId, v: nat, ns: set<NodeId>)
    requires Distinct(hash, v, ns) && n in ns
    ensures NoRepeats(Points(hash, n, v))
  {
    var points := Points(hash, n, v);
    forall i, j | 0 <= i < j < |points| ensures points[i] != points[j] {
      assert points[i] == PointOf(hash, n, i) && points[j] == PointOf(hash, n, j);
    }
  }

  /** Counts of one transfer to no repeats. */
  lemma CountsGiveNoRepeats(q: seq<Hash>)
    requires forall h :: multiset(q)[h] <= 1
    ensures NoRepeats(q)
  {
    forall i, j | 0 <= i < j < |q| ensures q[i] != q[j] {
      assert q == q[..i] + [q[i]] + q[i + 1..j] + [q[j]] + q[j + 1..];
      assert multiset(q)[q[i]] >= 1 + (if q[i] == q[j] then 1 else 0);
    }
  }

  lemma AddRepresents(r: Ring, hash: string -> Hash, v: nat, ns: set<NodeId>, n: NodeId)
    requires Represents(r, hash, v, ns) && n !in ns && Distinct(hash, v, ns + {n})
    ensures Represents(Add(r, Points(hash, n, v), n), hash, v, ns + {n})
  {
    var points := Points(hash, n, v);
    var r' := Add(r, points, n);
    PointsOf(hash, n, v);
    PointsNoRepeats(hash, n, v, ns + {n});
    SortSorts(r.points + points);
    forall p ensures p in r'.points <==> p in r.points || p in points { SortMembers(r.points + points, p); }
    forall p | p in r.points ensures p !in points {
      var i: nat :| r.owners[p] in ns && i < v && PointOf(hash, r.owners[p], i) == p;
    }
    forall p ensures multiset(r'.points)[p] <= 1 {
      NoRepeatsCount(r.points, p);
      NoRepeatsCount(points, p);
      assert multiset(r'.points)[p] == multiset(r.points)[p] + multiset(points)[p];
    }
    CountsGiveNoRepeats(r'.points);
    AddOwners(r, hash, v, ns, n);
  }

  lemma AddOwners(r: Ring, hash: string -> Hash, v: nat, ns: set<NodeId>, n: NodeId)
    requires Represents(r, hash, v, ns) && n !in ns && Distinct(hash, v, ns + {n})
    ensures var owners := Own(r.owners, Points(hash, n, v), n);
      && (forall m, i: nat :: m in ns + {n} && i < v ==> PointOf(hash, m, i) in owners && owners[PointOf(hash, m, i)] == m)
      && (forall p :: p in owners ==> exists i: nat :: owners[p] in ns + {n} && i < v && PointOf(hash, owners[p], i) == p)
  {
    var points := Points(hash, n, v);
    var owners := Own(r.owners, points, n);
    PointsOf(hash, n, v);
    forall m, i: nat | m in ns + {n} && i < v
      ensures PointOf(hash, m, i) in owners && owners[PointOf(hash, m, i)] == m
    {
      assert m != n ==> forall j: nat :: j < v ==> PointOf(hash, n, j) != PointOf(hash, m, i);
    }
    forall p | p in owners ensures exists i: nat :: owners[p] in ns + {n} && i < v && PointOf(hash, owners[p], i) == p {
      if p in points {
        var i: nat :| i < v && PointOf(hash, n, i) == p;
        assert owners[p] == n && n in ns + {n};
      } else {
        var i: nat :| r.owners[p] in ns && i < v && PointOf(hash, r.owners[p], i) == p;
        assert owners[p] == r.owners[p] && owners[p] in ns + {n};
      }
    }
  }

  /** On a ring whose points are distinct and all owned, removal keeps exactly the other nodes' points. */
  lemma {:induction false} StripFilters(r: Ring, n: NodeId, p: Hash)
    requires NoRepeats(r.points) && forall q :: q in r.points ==> q in r.owners
    ensures p in Strip(r, n).points <==> p in r.points && r.owners[p] != n
    ensures p in Strip(r, n).owners <==> p in r.owners && !(p in r.points && r.owners[p] == n)
    ensures multiset(Strip(r, n).points)[p] <= multiset(r.points)[p]
    decreases |r.points|
  {
    if r.points != [] {
      var h, rest := r.points[0], r.points[1..];
      assert r.points == [h] + rest;
      assert h !in rest;
      assert forall q :: q in rest ==> q in r.points;
      if r.Owner(h) != n {
        StripFilters(Ring(rest, r.owners), n, p);
        StripKeepsOthers(Ring(rest, r.owners), n, p);
      } else {
        StripFilters(Ring(rest, r.owners - {h}), n, p);
      }
    }
  }

  lemma RemoveRepresents(r: Ring, hash: string -> Hash, v: nat, ns: set<NodeId>, n: NodeId)
    requires Represents(r, hash, v, ns) && n in ns
    ensures Represents(Strip(r, n), hash, v, ns - {n})
  {
    var r' := Strip(r, n);
    StripKeepsSorted(r, n);
    forall p ensures p in r'.points <==> p in r'.owners { StripFilters(r, n, p); }
    forall p ensures multiset(r'.points)[p] <= 1 {
      StripFilters(r, n, p);
      NoRepeatsCount(r.points, p);
    }
    CountsGiveNoRepeats(r'.points);
    RemoveOwners(r, hash, v, ns, n);
  }

  lemma RemoveOwners(r: Ring, hash: string -> Hash, v: nat, ns: set<NodeId>, n: NodeId)
    requires Represents(r, hash, v, ns) && n in ns
    ensures var owners := Strip(r, n).owners;
      && (forall m, i: nat :: m in ns - {n} && i < v ==> PointOf(hash, m, i) in owners && owners[PointOf(hash, m, i)] == m)
      && (forall p :: p in owners ==> exists i: nat :: owners[p] in ns - {n} && i < v && PointOf(hash, owners[p], i) == p)
  {
    var r' := Strip(r, n);
    forall m, i: nat | m in ns - {n} && i < v
      ensures PointOf(hash, m, i) in r'.owners && r'.owners[PointOf(hash, m, i)] == m
    {
      StripKeepsOthers(r, n, PointOf(hash, m, i));
    }
    forall p | p in r'.owners
      ensures exists i: nat :: r'.owners[p] in ns - {n} && i < v && PointOf(hash, r'.owners[p], i) == p
    {
      StripFilters(r, n, p);
      StripKeepsOthers(r, n, p);
      var i: nat :| r.owners[p] in ns && i < v && PointOf(hash, r.owners[p], i) == p;
      assert r'.owners[p] in ns - {n};
    }
  }

  lemma {:induction false} SubsetSize(a: set<Hash>, b: set<Hash>)
    requires a <= b
    ensures |a| <= |b|
  {
    if a != {} {
      var x :| x in a;
      SubsetSize(a - {x}, b - {x});
    }
  }

  /** A ring that has the node never panics on removing it. */
  lemma RemovalDoesNotPanic(r: Ring, hash: string -> Hash, v: nat, ns: set<NodeId>, n: NodeId)
    requires Represents(r, hash, v, ns) && n in ns && Distinct(hash, v, ns)
    ensures |r.points| >= v
  {
    var points := Points(hash, n, v);
    PointsOf(hash, n, v);
    PointsNoRepeats(hash, n, v, ns);
    var a, b := set p | p in points, set p | p in r.points;
    forall p | p in a ensures p in b {
      var i: nat :| i < v && PointOf(hash, n, i) == p;
      assert p in r.owners;
    }
    EnumerationLength(points, a);
    EnumerationLength(r.points, b);
    SubsetSize(a, b);
  }

  /** Adding a node and removing it again restores ring and owner map. */
  lemma AddThenRemoveRestores(r: Ring, hash: string -> Hash, v: nat, ns: set<NodeId>, n: NodeId)
    requires Represents(r, hash, v, ns) && n !in ns && Distinct(hash, v, ns + {n})
    ensures Strip(Add(r, Points(hash, n, v), n), n) == r
  {
    AddRepresents(r, hash, v, ns, n);
    RemoveRepresents(Add(r, Points(hash, n, v), n), hash, v, ns + {n}, n);
    assert ns + {n} - {n} == ns;
    RepresentationIsUnique(Strip(Add(r, Points(hash, n, v), n), n), r, hash, v, ns);
  }

  // ---------------------------------------------------------------- histories

  datatype Change = Joins(n: NodeId) | Departs(n: NodeId)

  /** What `AddNode` and `RemoveNode` do to the ring, a panic included. */
  function Change1(r: Ring, hash: string -> Hash, v: nat, c: Change): Ring {
    match c
    case Joins(n) => Add(r, Points(hash, n, v), n)
    case Departs(n) => if |r.points| < v then r else Strip(r, n)
  }

  function After(hash: string -> Hash, v: nat, cs: seq<Change>): Ring {
    if cs == [] then Ring([], map[]) else Change1(After(hash, v, cs[..|cs| - 1]), hash, v, cs[|cs| - 1])
  }

  function Present(cs: seq<Change>): set<NodeId> {
    if cs == [] then {}
    else
      var before := Present(cs[..|cs| - 1]);
      match cs[|cs| - 1]
      case Joins(n) => before + {n}
      case Departs(n) => before - {n}
  }

  function Mentioned(cs: seq<Change>): set<NodeId> {
    set c | c in cs :: c.n
  }

  /** Only absent nodes join and only present nodes depart. */
  ghost predicate Proper(cs: seq<Change>) {
    forall i :: 0 <= i < |cs| ==> (cs[i].Joins? <==> cs[i].n !in Present(cs[..i]))
  }

  /** The ring after any history is the ring of the nodes present. */
  lemma {:induction false} HistoryRepresents(hash: string -> Hash, v: nat, cs: seq<Change>, ns: set<NodeId>)
    requires Proper(cs) && Mentioned(cs) <= ns && Distinct(hash, v, ns)
    ensures Present(cs) <= ns
    ensures Represents(After(hash, v, cs), hash, v, Present(cs))
    decreases |cs|
  {
    if cs != [] {
      var front, c := cs[..|cs| - 1], cs[|cs| - 1];
      assert forall i :: 0 <= i < |front| ==> front[i] == cs[i] && front[..i] == cs[..i];
      assert c in cs;
      forall n | n in Mentioned(front) ensures n in ns {
        var d :| d in front && d.n == n;
        assert d in cs;
        assert n in Mentioned(cs);
      }
      assert c.n in Mentioned(cs);
      HistoryRepresents(hash, v, front, ns);
      var r := After(hash, v, front);
      match c
      case Joins(n) =>
        assert Distinct(hash, v, Present(front) + {n});
        AddRepresents(r, hash, v, Present(front), n);
      case Departs(n) =>
        assert Distinct(hash, v, Present(front));
        RemovalDoesNotPanic(r, hash, v, Present(front), n);
        RemoveRepresents(r, hash, v, Present(front), n);
    }
  }

  /** Two servers that see the same nodes, through whatever histories, hold the same ring and route alike. */
  lemma ServersAgree(hash: string -> Hash, v: nat, cs: seq<Change>, ds: seq<Change>)
    requires Proper(cs) && Proper(ds) && Present(cs) == Present(ds)
    requires Distinct(hash, v, Mentioned(cs) + Mentioned(ds))
    ensures After(hash, v, cs) == After(hash, v, ds)
  {
    HistoryRepresents(hash, v, cs, Mentioned(cs) + Mentioned(ds));
    HistoryRepresents(hash, v, ds, Mentioned(cs) + Mentioned(ds));
    RepresentationIsUnique(After(hash, v, cs), After(hash, v, ds), hash, v, Present(cs));
  }
}
