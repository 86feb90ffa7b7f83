/**
 * The ring after any history at all, nodes that join while present and nodes that
 * depart while absent included: a node's points are in the ring once per
 * unanswered join, and have an owner only while the node is present.
 */
module HashRingRejoins {
  import opened HashRing
  import opened HashRingRuns

  // ---------------------------------------------------------------- joining twice

  /** Whatever the hash: a node that joins twice and departs leaves every one of its points without an owner. */
  lemma RejoinedNodeDangles(hash: string -> Hash, v: nat, n: NodeId, i: nat)
    requires n != NO_NODE && i < v
    ensures Dangles(After(hash, v, [Joins(n), Joins(n), Departs(n)]), PointOf(hash, n, i))
  {
    var once, twice := Joined(hash, v, n), Add(Joined(hash, v, n), Points(hash, n, v), n);
    HistoryOfThree(hash, v, n);
    var points, p := Points(hash, n, v), PointOf(hash, n, i);
    assert points[i] == p;
    SortSorts([] + points);
    SortSorts(once.points + points);
    assert [] + points == points;
    assert p in multiset(points) && multiset(twice.points) == multiset(points) + multiset(points);
    assert |twice.points| == |multiset(twice.points)| && |points| == |multiset(points)|;
    RemoveDanglesIff(twice, n, p);
  }

  /** The ring of one node. */
  function Joined(hash: string -> Hash, v: nat, n: NodeId): Ring {
    Add(Ring([], map[]), Points(hash, n, v), n)
  }

  lemma HistoryOfThree(hash: string -> Hash, v: nat, n: NodeId)
    ensures After(hash, v, [Joins(n), Joins(n), Departs(n)])
         == Change1(Add(Joined(hash, v, n), Points(hash, n, v), n), hash, v, Departs(n))
  {
    var join, twice := [Joins(n)], [Joins(n), Joins(n)];
    assert join[..0] == [] && twice[..1] == join && [Joins(n), Joins(n), Departs(n)][..2] == twice;
    assert After(hash, v, join) == Joined(hash, v, n);
    assert After(hash, v, twice) == Add(Joined(hash, v, n), Points(hash, n, v), n);
  }

  /** Joining again while present changes no route. */
  lemma RejoinKeepsRoutes(r: Ring, points: seq<Hash>, n: NodeId, h: Hash, m: NodeId)
    requires forall p :: p in points ==> p in r.points && p in r.owners && r.owners[p] == n
    ensures Add(r, points, n).owners == r.owners
    ensures RoutesTo(Add(r, points, n), h, m) <==> RoutesTo(r, h, m)
  {
    var r' := Add(r, points, n);
    forall p ensures p in r'.points <==> p in r.points { SortMembers(r.points + points, p); }
    assert r.points == [] <==> r'.points == [] by {
      if r.points != [] { assert r.points[0] in r'.points; }
      if r'.points != [] { assert r'.points[0] in r.points; }
    }
    forall p ensures First(r'.points, h, p) <==> First(r.points, h, p) {}
  }

  /** Departing after that loses the node's keys: each of them is then routed to no node. */
  lemma RejoinedDepartureLosesKeys(r: Ring, n: NodeId, h: Hash)
    requires n != NO_NODE && RoutesTo(r, h, n)
    requires forall p :: p in r.points && r.Owner(p) == n ==> multiset(r.points)[p] >= 2
    ensures RoutesTo(Strip(r, n), h, NO_NODE)
  {
    var p :| First(r.points, h, p) && r.Owner(p) == n;
    var r' := Strip(r, n);
    RemoveDanglesIff(r, n, p);
    StripKeepsSorted(r, n);
    assert First(r'.points, h, p) && r'.Owner(p) == NO_NODE;
  }

  // ---------------------------------------------------------------- counting points

  /** Removal takes one copy of each point the node owns, and their owner entries. */
  lemma {:induction false} StripCounts(r: Ring, n: NodeId, p: Hash)
    requires n != NO_NODE
    ensures multiset(Strip(r, n).points)[p]
         == multiset(r.points)[p] - (if p in r.points && r.Owner(p) == n then 1 else 0)
    ensures p in Strip(r, n).owners <==> p in r.owners && !(p in r.points && r.owners[p] == n)
    decreases |r.points|
  {
    if r.points != [] {
      var h, rest := r.points[0], r.points[1..];
      assert r.points == [h] + rest;
      assert p in r.points <==> p == h || p in rest;
      if r.Owner(h) != n {
        StripCounts(Ring(rest, r.owners), n, p);
      } else {
        StripCounts(Ring(rest, r.owners - {h}), n, p);
      }
    }
  }

  ghost predicate PointFrom(hash: string -> Hash, v: nat, ns: set<NodeId>, p: Hash) {
    exists n, i: nat :: n in ns && i < v && PointOf(hash, n, i) == p
  }

  /** Each node's points are there `copies[n]` times, and nothing else is. */
  ghost predicate CountedPoints(points: seq<Hash>, hash: string -> Hash, v: nat, copies: map<NodeId, nat>) {
    && Sorted(points)
    && (forall p :: p in points ==> PointFrom(hash, v, copies.Keys, p))
    && (forall n, i: nat :: n in copies && i < v ==> multiset(points)[PointOf(hash, n, i)] == copies[n])
  }

  /** Of the nodes in `ns`, those present own their points, and nothing else is owned. */
  ghost predicate CountedOwners(owners: map<Hash, NodeId>, hash: string -> Hash, v: nat, present: set<NodeId>, ns: set<NodeId>) {
    && (forall p :: p in owners ==> PointFrom(hash, v, present, p))
    && (forall n, i: nat :: n in ns && i < v ==>
          if n in present then PointOf(hash, n, i) in owners && owners[PointOf(hash, n, i)] == n
          else PointOf(hash, n, i) !in owners)
  }

  ghost predicate Counted(r: Ring, hash: string -> Hash, v: nat, present: set<NodeId>, copies: map<NodeId, nat>) {
    && present <= copies.Keys && (forall n :: n in present ==> copies[n] >= 1)
    && CountedPoints(r.points, hash, v, copies) && CountedOwners(r.owners, hash, v, present, copies.Keys)
  }

  lemma CountedIsUnique(r: Ring, r': Ring, hash: string -> Hash, v: nat, present: set<NodeId>, copies: map<NodeId, nat>)
    requires Counted(r, hash, v, present, copies) && Counted(r', hash, v, present, copies)
    ensures r == r'
  {
    OwnersAgree(r, r', hash, v, present, copies);
    OwnersAgree(r', r, hash, v, present, copies);
    assert r.owners == r'.owners;
    forall p ensures multiset(r.points)[p] == multiset(r'.points)[p] {
      if p in r.points || p in r'.points {
        assert PointFrom(hash, v, copies.Keys, p);
      }
    }
    assert multiset(r.points) == multiset(r'.points);
    SortedUnique(r.points, r'.points);
  }

  lemma OwnersAgree(r: Ring, r': Ring, hash: string -> Hash, v: nat, present: set<NodeId>, copies: map<NodeId, nat>)
    requires Counted(r, hash, v, present, copies) && Counted(r', hash, v, present, copies)
    ensures forall p :: p in r.owners ==> p in r'.owners && r.owners[p] == r'.owners[p]
  {
    forall p | p in r.owners ensures p in r'.owners && r.owners[p] == r'.owners[p] {
      var n, i: nat :| n in present && i < v && PointOf(hash, n, i) == p;
    }
  }

  // ---------------------------------------------------------------- one change

  lemma PointsCount(hash: string -> Hash, v: nat, ns: set<NodeId>, n: NodeId, m: NodeId, i: nat)
    requires Distinct(hash, v, ns) && n in ns && m in ns && i < v
    ensures multiset(Points(hash, n, v))[PointOf(hash, m, i)] == if m == n then 1 else 0
  {
    PointsNoRepeats(hash, n, v, ns);
    NoRepeatsCount(Points(hash, n, v), PointOf(hash, m, i));
    PointsOf(hash, n, v);
  }

  lemma JoinCounts(r: Ring, hash: string -> Hash, v: nat, present: set<NodeId>, copies: map<NodeId, nat>, n: NodeId)
    requires Counted(r, hash, v, present, copies) && n in copies && Distinct(hash, v, copies.Keys)
    ensures Counted(Add(r, Points(hash, n, v), n), hash, v, present + {n}, copies[n := copies[n] + 1])
  {
    JoinPoints(r.points, hash, v, copies, n);
    JoinOwners(r, hash, v, present, copies, n);
    assert copies[n := copies[n] + 1].Keys == copies.Keys;
  }

  lemma JoinPoints(points: seq<Hash>, hash: string -> Hash, v: nat, copies: map<NodeId, nat>, n: NodeId)
    requires CountedPoints(points, hash, v, copies) && n in copies && Distinct(hash, v, copies.Keys)
    ensures CountedPoints(Sort(points + Points(hash, n, v)), hash, v, copies[n := copies[n] + 1])
  {
    var more, copies' := Points(hash, n, v), copies[n := copies[n] + 1];
    SortSorts(points + more);
    assert copies'.Keys == copies.Keys;
    forall p | p in Sort(points + more) ensures PointFrom(hash, v, copies'.Keys, p) {
      SortMembers(points + more, p);
      PointsOf(hash, n, v);
    }
    forall m, i: nat | m in copies' && i < v ensures multiset(Sort(points + more))[PointOf(hash, m, i)] == copies'[m] {
      PointsCount(hash, v, copies.Keys, n, m, i);
    }
  }

  lemma JoinOwners(r: Ring, hash: string -> Hash, v: nat, present: set<NodeId>, copies: map<NodeId, nat>, n: NodeId)
    requires CountedOwners(r.owners, hash, v, present, copies.Keys) && n in copies && Distinct(hash, v, copies.Keys)
    ensures CountedOwners(Own(r.owners, Points(hash, n, v), n), hash, v, present + {n}, copies.Keys)
  {
    var points := Points(hash, n, v);
    var owners := Own(r.owners, points, n);
    PointsOf(hash, n, v);
    forall p | p in owners ensures PointFrom(hash, v, present + {n}, p) {
      if p in points {
        var i: nat :| i < v && PointOf(hash, n, i) == p;
        assert n in present + {n};
      } else {
        var m, i: nat :| m in present && i < v && PointOf(hash, m, i) == p;
        assert m in present + {n};
      }
    }
    forall m, i: nat | m in copies && i < v
      ensures if m in present + {n} then PointOf(hash, m, i) in owners && owners[PointOf(hash, m, i)] == m
              else PointOf(hash, m, i) !in owners
    {
      PointsCount(hash, v, copies.Keys, n, m, i);
    }
  }

  lemma DepartCounts(r: Ring, hash: string -> Hash, v: nat, present: set<NodeId>, copies: map<NodeId, nat>, n: NodeId)
    requires Counted(r, hash, v, present, copies) && n in present && n != NO_NODE && Distinct(hash, v, copies.Keys)
    ensures Counted(Strip(r, n), hash, v, present - {n}, copies[n := copies[n] - 1])
  {
    DepartPoints(r, hash, v, present, copies, n);
    DepartOwners(r, hash, v, present, copies, n);
    assert copies[n := copies[n] - 1].Keys == copies.Keys;
  }

  lemma DepartPoints(r: Ring, hash: string -> Hash, v: nat, present: set<NodeId>, copies: map<NodeId, nat>, n: NodeId)
    requires Counted(r, hash, v, present, copies) && n in present && n != NO_NODE && Distinct(hash, v, copies.Keys)
    ensures CountedPoints(Strip(r, n).points, hash, v, copies[n := copies[n] - 1])
  {
    var r', copies' := Strip(r, n), copies[n := copies[n] - 1];
    StripKeepsSorted(r, n);
    assert copies'.Keys == copies.Keys;
    forall m, i: nat | m in copies' && i < v ensures multiset(r'.points)[PointOf(hash, m, i)] == copies'[m] {
      StripCounts(r, n, PointOf(hash, m, i));
      PointOwner(r, hash, v, present, copies, m, i);
    }
  }

  lemma PointOwner(r: Ring, hash: string -> Hash, v: nat, present: set<NodeId>, copies: map<NodeId, nat>, m: NodeId, i: nat)
    requires Counted(r, hash, v, present, copies) && m in copies && i < v
    ensures r.Owner(PointOf(hash, m, i)) == if m in present then m else NO_NODE
    ensures m in present ==> PointOf(hash, m, i) in r.points
  {
    assert multiset(r.points)[PointOf(hash, m, i)] == copies[m];
  }

  lemma DepartOwners(r: Ring, hash: string -> Hash, v: nat, present: set<NodeId>, copies: map<NodeId, nat>, n: NodeId)
    requires Counted(r, hash, v, present, copies) && n in present && n != NO_NODE && Distinct(hash, v, copies.Keys)
    ensures CountedOwners(Strip(r, n).owners, hash, v, present - {n}, copies.Keys)
  {
    var r' := Strip(r, n);
    forall m, i: nat | m in copies.Keys && i < v
      ensures if m in present - {n} then PointOf(hash, m, i) in r'.owners && r'.owners[PointOf(hash, m, i)] == m
              else PointOf(hash, m, i) !in r'.owners
    {
      StripCounts(r, n, PointOf(hash, m, i));
      StripKeepsOthers(r, n, PointOf(hash, m, i));
      PointOwner(r, hash, v, present, copies, m, i);
    }
    forall p | p in r'.owners ensures PointFrom(hash, v, present - {n}, p) {
      StripCounts(r, n, p);
      var m, i: nat :| m in present && i < v && PointOf(hash, m, i) == p;
      PointOwner(r, hash, v, present, copies, m, i);
      assert m in present - {n};
    }
  }

  lemma {:induction false} StripNothing(r: Ring, n: NodeId)
    requires forall p :: p in r.points ==> r.Owner(p) != n
    ensures Strip(r, n) == r
    decreases |r.points|
  {
    if r.points != [] {
      var h, rest := r.points[0], Ring(r.points[1..], r.owners);
      assert r.points == [h] + rest.points;
      forall p | p in rest.points ensures rest.Owner(p) != n { assert p in r.points && rest.Owner(p) == r.Owner(p); }
      StripNothing(rest, n);
    }
  }

  /** A node with a point for each of its virtual nodes departs without a panic. */
  lemma EnoughPoints(r: Ring, hash: string -> Hash, v: nat, present: set<NodeId>, copies: map<NodeId, nat>, n: NodeId)
    requires Counted(r, hash, v, present, copies) && n in present && Distinct(hash, v, copies.Keys)
    ensures |r.points| >= v
  {
    var points := Points(hash, n, v);
    forall p ensures multiset(points)[p] <= multiset(r.points)[p] {
      PointsOf(hash, n, v);
      PointsNoRepeats(hash, n, v, copies.Keys);
      NoRepeatsCount(points, p);
      if p in points { var i: nat :| i < v && PointOf(hash, n, i) == p; }
    }
    assert multiset(r.points) == multiset(points) + (multiset(r.points) - multiset(points));
    assert |multiset(r.points)| == |r.points| && |multiset(points)| == |points|;
  }

  // ---------------------------------------------------------------- any history

  /** How often a node's points are in the ring: joins, less the departures of the node while present. */
  function Copies(cs: seq<Change>, n: NodeId): (k: nat)
    ensures n in Present(cs) ==> k >= 1
  {
    if cs == [] then 0
    else
      var front, c := cs[..|cs| - 1], cs[|cs| - 1];
      var k := Copies(front, n);
      if c.n != n then k
      else if c.Joins? then k + 1
      else if n in Present(front) then k - 1 else k
  }

  function CopiesOf(cs: seq<Change>, ns: set<NodeId>): map<NodeId, nat> {
    map n | n in ns :: Copies(cs, n)
  }

  /** The ring after any history of named nodes whose virtual nodes hash apart. */
  lemma {:induction false} AnyHistory(hash: string -> Hash, v: nat, cs: seq<Change>, ns: set<NodeId>)
    requires Mentioned(cs) <= ns && NO_NODE !in ns && Distinct(hash, v, ns)
    ensures Counted(After(hash, v, cs), hash, v, Present(cs), CopiesOf(cs, ns))
    decreases |cs|
  {
    if cs != [] {
      var front, c := cs[..|cs| - 1], cs[|cs| - 1];
      MentionedFront(cs);
      AnyHistory(hash, v, front, ns);
      if c.Joins? {
        JoinFollows(hash, v, cs, ns);
      } else if c.n in Present(front) {
        DepartureFollows(hash, v, cs, ns);
      } else {
        AbsenceFollows(hash, v, cs, ns);
      }
    }
  }

  lemma JoinFollows(hash: string -> Hash, v: nat, cs: seq<Change>, ns: set<NodeId>)
    requires cs != [] && cs[|cs| - 1].n in ns && Distinct(hash, v, ns) && cs[|cs| - 1].Joins?
    requires var front := cs[..|cs| - 1]; Counted(After(hash, v, front), hash, v, Present(front), CopiesOf(front, ns))
    ensures Counted(After(hash, v, cs), hash, v, Present(cs), CopiesOf(cs, ns))
  {
    var front, n := cs[..|cs| - 1], cs[|cs| - 1].n;
    var copies := CopiesOf(front, ns);
    assert CopiesOf(cs, ns) == copies[n := copies[n] + 1];
    JoinCounts(After(hash, v, front), hash, v, Present(front), copies, n);
  }

  lemma DepartureFollows(hash: string -> Hash, v: nat, cs: seq<Change>, ns: set<NodeId>)
    requires cs != [] && cs[|cs| - 1].n in ns && Distinct(hash, v, ns) && cs[|cs| - 1].Departs? && NO_NODE !in ns
    requires var front := cs[..|cs| - 1];
      cs[|cs| - 1].n in Present(front) && Counted(After(hash, v, front), hash, v, Present(front), CopiesOf(front, ns))
    ensures Counted(After(hash, v, cs), hash, v, Present(cs), CopiesOf(cs, ns))
  {
    var front, n := cs[..|cs| - 1], cs[|cs| - 1].n;
    var copies := CopiesOf(front, ns);
    assert CopiesOf(cs, ns) == copies[n := copies[n] - 1];
    EnoughPoints(After(hash, v, front), hash, v, Present(front), copies, n);
    DepartCounts(After(hash, v, front), hash, v, Present(front), copies, n);
  }

  lemma AbsenceFollows(hash: string -> Hash, v: nat, cs: seq<Change>, ns: set<NodeId>)
    requires cs != [] && cs[|cs| - 1].n in ns && cs[|cs| - 1].Departs? && NO_NODE !in ns
    requires var front := cs[..|cs| - 1];
      cs[|cs| - 1].n !in Present(front) && Counted(After(hash, v, front), hash, v, Present(front), CopiesOf(front, ns))
    ensures Counted(After(hash, v, cs), hash, v, Present(cs), CopiesOf(cs, ns))
  {
    var front, n := cs[..|cs| - 1], cs[|cs| - 1].n;
    AbsentDeparts(After(hash, v, front), hash, v, Present(front), CopiesOf(front, ns), n);
    assert CopiesOf(cs, ns) == CopiesOf(front, ns) && Present(cs) == Present(front);
  }

  lemma MentionedFront(cs: seq<Change>)
    requires cs != []
    ensures Mentioned(cs[..|cs| - 1]) <= Mentioned(cs) && cs[|cs| - 1].n in Mentioned(cs)
  {
    var front := cs[..|cs| - 1];
    forall n | n in Mentioned(front) ensures n in Mentioned(cs) {
      var c :| c in front && c.n == n;
      assert c in cs;
    }
    assert cs[|cs| - 1] in cs;
  }

  lemma AbsentDeparts(r: Ring, hash: string -> Hash, v: nat, present: set<NodeId>, copies: map<NodeId, nat>, n: NodeId)
    requires Counted(r, hash, v, present, copies) && n in copies && n !in present && n != NO_NODE
    ensures Change1(r, hash, v, Departs(n)) == r
  {
    forall p | p in r.points ensures r.Owner(p) != n {
      if p in r.owners { var m, i: nat :| m in present && i < v && PointOf(hash, m, i) == p; }
    }
    StripNothing(r, n);
  }

  /**
   * Two servers hold the same ring exactly when the same nodes are present and
   * each node's points are there equally often, whatever their histories.
   */
  lemma ServersAgreeIff(hash: string -> Hash, v: nat, cs: seq<Change>, ds: seq<Change>)
    requires v > 0 && NO_NODE !in Mentioned(cs) + Mentioned(ds) && Distinct(hash, v, Mentioned(cs) + Mentioned(ds))
    ensures After(hash, v, cs) == After(hash, v, ds) <==>
      Present(cs) == Present(ds) && CopiesOf(cs, Mentioned(cs) + Mentioned(ds)) == CopiesOf(ds, Mentioned(cs) + Mentioned(ds))
  {
    var ns := Mentioned(cs) + Mentioned(ds);
    AnyHistory(hash, v, cs, ns);
    AnyHistory(hash, v, ds, ns);
    var r, r' := After(hash, v, cs), After(hash, v, ds);
    if Present(cs) == Present(ds) && CopiesOf(cs, ns) == CopiesOf(ds, ns) {
      CountedIsUnique(r, r', hash, v, Present(cs), CopiesOf(cs, ns));
    } else if r == r' {
      CountsAreDetermined(r, hash, v, Present(cs), CopiesOf(cs, ns), Present(ds), CopiesOf(ds, ns));
    }
  }

  lemma CountsAreDetermined(r: Ring, hash: string -> Hash, v: nat,
    present: set<NodeId>, copies: map<NodeId, nat>, present': set<NodeId>, copies': map<NodeId, nat>)
    requires v > 0 && copies.Keys == copies'.Keys
    requires Counted(r, hash, v, present, copies) && Counted(r, hash, v, present', copies')
    ensures present == present' && copies == copies'
  {
    forall n | n in copies ensures copies[n] == copies'[n] && (n in present <==> n in present') {
      assert multiset(r.points)[PointOf(hash, n, 0)] == copies[n];
    }
  }

  /** Keys are lost exactly at the points of an absent node that joined more often than it departed. */
  lemma DanglesAfterIff(hash: string -> Hash, v: nat, cs: seq<Change>, n: NodeId, i: nat)
    requires NO_NODE !in Mentioned(cs) && Distinct(hash, v, Mentioned(cs)) && n in Mentioned(cs) && i < v
    ensures Dangles(After(hash, v, cs), PointOf(hash, n, i)) <==> n !in Present(cs) && Copies(cs, n) > 0
  {
    AnyHistory(hash, v, cs, Mentioned(cs));
    var r := After(hash, v, cs);
    assert multiset(r.points)[PointOf(hash, n, i)] == CopiesOf(cs, Mentioned(cs))[n];
  }
}
