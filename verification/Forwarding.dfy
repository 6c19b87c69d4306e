/** What becomes of a message addressed to another node, hop by hop. */
module Forwarding {
  import opened Common
  import opened LinkState
  import opened Paths
  import opened RoutingObjects
  import CachedTable

  /**
   All nodes with one view of the edges: each node's table and neighbours, and the node at
   the far end of each channel.
   */
  datatype World = World(nodes: set<Id>, edges: Edges, tables: Id -> Table, neighbors: Id -> map<Id, Channel>,
                         far: (Id, Channel) -> Id)

  /** A node's neighbours are the nodes it announced, and their channels lead to them. */
  ghost predicate Wired(w: World) {
    forall u :: u in w.nodes ==> WiredAt(w, u)
  }

  ghost predicate WiredAt(w: World, u: Id) {
    && w.neighbors(u).Keys == Out(w.edges, u) <= w.nodes
    && forall n :: n in w.neighbors(u) ==> w.far(u, w.neighbors(u)[n]) == n
  }

  ghost predicate ShortestTables(w: World) {
    forall u :: u in w.nodes ==> IsShortestTable(u, w.edges, w.tables(u))
  }

  /** Where a message for `dst` goes next from `u`, by the channel of its next hop. */
  function Hop(w: World, u: Id, dst: Id): Option<Id> {
    match RouteAsIntended(w.tables(u), w.neighbors(u), dst)
    case None => None
    case Some(c) => Some(w.far(u, c))
  }

  /** Where it is after `k` hops: a node keeps what is addressed to it and drops what it cannot route. */
  function Trip(w: World, u: Id, dst: Id, k: nat): Option<Id>
    decreases k
  {
    if k == 0 then Some(u)
    else
      match Hop(w, u, dst)
      case None => None
      case Some(v) => Trip(w, v, dst, k - 1)
  }

  lemma DistanceBounds(edges: Edges, u: Id, v: Id, d: int, k: nat)
    requires IsDistance(edges, u, v, d) && Walk(edges, u, v, k)
    ensures 0 <= d <= k
  {
  }

  lemma DistanceIsUnique(edges: Edges, u: Id, x: Id, v: Id, d: int, e: int)
    requires IsDistance(edges, u, v, d) && IsDistance(edges, x, v, e)
    ensures u == x ==> d == e
  {
    if u == x {
      if 0 <= d {
        DistanceBounds(edges, u, v, e, d);
      }
      if 0 <= e {
        DistanceBounds(edges, u, v, d, e);
      }
    }
  }

  lemma StepThenWalk(edges: Edges, u: Id, hop: Id, v: Id, k: nat)
    requires hop in Out(edges, u)
    ensures Walk(edges, hop, v, k) ==> Walk(edges, u, v, k + 1)
  {
  }

  /** A neighbour that begins a shortest walk is exactly one hop nearer. */
  lemma BeginsIsNearer(edges: Edges, u: Id, hop: Id, v: Id, d: nat)
    requires Begins(edges, u, hop, v) && IsDistance(edges, u, v, d)
    ensures 0 < d && IsDistance(edges, hop, v, d - 1)
  {
    var e: nat :| Walk(edges, hop, v, e) && IsDistance(edges, u, v, e + 1);
    DistanceIsUnique(edges, u, u, v, d, e + 1);
    forall k: nat | k < e ensures !Walk(edges, hop, v, k) {
      StepThenWalk(edges, u, hop, v, k);
      assert !Walk(edges, u, v, k + 1);
    }
  }

  /** Every hop strictly lowers the distance to the destination, by one. */
  lemma HopIsNearer(w: World, u: Id, dst: Id, d: nat)
    requires Wired(w) && ShortestTables(w) && u in w.nodes && IsDistance(w.edges, u, dst, d) && 0 < d
    ensures Hop(w, u, dst).Some? && Hop(w, u, dst).value in w.nodes
    ensures IsDistance(w.edges, Hop(w, u, dst).value, dst, d - 1)
  {
    assert WiredAt(w, u);
    assert IsShortestTable(u, w.edges, w.tables(u));
    assert Walk(w.edges, u, dst, d) && !Walk(w.edges, u, dst, 0);
    assert Reachable(w.edges, u, dst);
    BeginsIsNearer(w.edges, u, w.tables(u)[dst], dst, d);
  }

  /**
   Forwarding is loop-free: a message for a destination `d` hops away is, after each hop,
   exactly one hop nearer, so it arrives after `d` hops and visits no node twice on the way.
   */
  lemma {:induction false} Arrives(w: World, u: Id, dst: Id, d: nat, k: nat)
    requires Wired(w) && ShortestTables(w) && u in w.nodes && IsDistance(w.edges, u, dst, d) && k <= d
    ensures Trip(w, u, dst, k).Some? && IsDistance(w.edges, Trip(w, u, dst, k).value, dst, d - k)
    ensures k == d ==> Trip(w, u, dst, k) == Some(dst)
    decreases k
  {
    hide Wired, ShortestTables, IsDistance;
    if k > 0 {
      HopIsNearer(w, u, dst, d);
      Arrives(w, Hop(w, u, dst).value, dst, d - 1, k - 1);
    }
    if k == d {
      ZeroIsHere(w.edges, Trip(w, u, dst, k).value, dst);
    }
  }

  lemma ZeroIsHere(edges: Edges, u: Id, v: Id)
    requires IsDistance(edges, u, v, 0)
    ensures u == v
  {
    assert Walk(edges, u, v, 0);
  }

  lemma VisitsDiffer(w: World, u: Id, dst: Id, d: nat, j: nat, k: nat)
    requires Wired(w) && ShortestTables(w) && u in w.nodes && IsDistance(w.edges, u, dst, d) && j < k <= d
    ensures Trip(w, u, dst, j) != Trip(w, u, dst, k)
  {
    hide *;
    Arrives(w, u, dst, d, j);
    Arrives(w, u, dst, d, k);
    DistanceIsUnique(w.edges, Trip(w, u, dst, j).value, Trip(w, u, dst, k).value, dst, d - j, d - k);
  }

  /** What cannot be reached is dropped at once. */
  lemma UnreachableIsDropped(w: World, u: Id, dst: Id)
    requires ShortestTables(w) && u in w.nodes && IsDistance(w.edges, u, dst, -1)
    ensures Hop(w, u, dst) == None
  {
    assert IsShortestTable(u, w.edges, w.tables(u));
    assert !Reachable(w.edges, u, dst);
  }

  // ----- the code as written -----

  function HopWritten(w: World, u: Id, dst: Id): Option<Id> {
    match RouteAsWritten(w.tables(u), w.neighbors(u), dst)
    case None => None
    case Some(c) => Some(w.far(u, c))
  }

  lemma OneStepWalk(edges: Edges, u: Id, v: Id)
    ensures Walk(edges, u, v, 1) <==> v in Out(edges, u)
  {
    if v in Out(edges, u) {
      assert Walk(edges, v, v, 0);
    }
    if Walk(edges, u, v, 1) {
      var w :| w in Out(edges, u) && Walk(edges, w, v, 0);
    }
  }

  /**
   As written, with the tables the code computes, a message leaves a node exactly when its
   destination is one hop away, and then it goes straight there.
   */
  lemma WrittenReachesOnlyNeighbors(w: World, u: Id, dst: Id)
    requires WiredAt(w, u) && u in w.edges && w.tables(u) == CachedTable.Direct(u, w.edges)
    ensures HopWritten(w, u, dst).Some? <==> IsDistance(w.edges, u, dst, 1)
    ensures HopWritten(w, u, dst).Some? ==> HopWritten(w, u, dst) == Some(dst)
  {
    OneStepWalk(w.edges, u, dst);
    assert dst in w.neighbors(u) <==> dst in Out(w.edges, u);
    if IsDistance(w.edges, u, dst, 1) {
      assert !Walk(w.edges, u, dst, 0);
    }
    if dst in Out(w.edges, u) && dst != u {
      assert forall k: nat :: k < 1 ==> !Walk(w.edges, u, dst, k);
    }
  }

  /**
   The lookup as written, on shortest-path tables: it finds a channel exactly for
   destinations one hop away, and that channel leads straight there.
   */
  lemma WrittenLookupReachesOnlyNeighbors(w: World, u: Id, dst: Id)
    requires WiredAt(w, u) && IsShortestTable(u, w.edges, w.tables(u))
    ensures HopWritten(w, u, dst).Some? <==> IsDistance(w.edges, u, dst, 1)
    ensures HopWritten(w, u, dst).Some? ==> HopWritten(w, u, dst) == Some(dst)
  {
    OneStepWalk(w.edges, u, dst);
    assert dst in w.neighbors(u) <==> dst in Out(w.edges, u);
    if dst in Out(w.edges, u) && dst != u {
      assert forall k: nat :: k < 1 ==> !Walk(w.edges, u, dst, k);
    }
    if IsDistance(w.edges, u, dst, 1) {
      assert !Walk(w.edges, u, dst, 0);
    }
  }

  /** The destination is at least two hops away. */
  ghost predicate IsFar(edges: Edges, u: Id, dst: Id) {
    exists d: nat :: 2 <= d && IsDistance(edges, u, dst, d)
  }

  /** An entry of a shortest-path table says that its destination is some hops away. */
  lemma EntryHasDistance(edges: Edges, u: Id, table: Table, dst: Id)
    requires IsShortestTable(u, edges, table)
    ensures dst in table <==> exists d: nat :: 0 < d && IsDistance(edges, u, dst, d)
  {
    if dst in table {
      assert Begins(edges, u, table[dst], dst);
      var e: nat :| IsDistance(edges, u, dst, e + 1);
    }
    if d: nat :| 0 < d && IsDistance(edges, u, dst, d) {
      assert Walk(edges, u, dst, d) && !Walk(edges, u, dst, 0);
    }
  }

  /** The lookup differs from what its comment says exactly for reachable destinations two or more hops away. */
  lemma LookupsDifferExactly(w: World, u: Id, dst: Id)
    requires Wired(w) && ShortestTables(w) && u in w.nodes
    ensures HopWritten(w, u, dst) != Hop(w, u, dst) <==> IsFar(w.edges, u, dst)
  {
    assert WiredAt(w, u) && IsShortestTable(u, w.edges, w.tables(u));
    hide IsShortestTable, WiredAt, Wired, ShortestTables;
    EntryHasDistance(w.edges, u, w.tables(u), dst);
    WrittenLookupReachesOnlyNeighbors(w, u, dst);
    if d: nat :| 0 < d && IsDistance(w.edges, u, dst, d) {
      HopIsNearer(w, u, dst, d);
      hide Hop, HopWritten;
      if d == 1 {
        assert IsDistance(w.edges, Hop(w, u, dst).value, dst, 0);
        ZeroIsHere(w.edges, Hop(w, u, dst).value, dst);
        OneIsNotFar(w.edges, u, dst);
      } else {
        DistanceIsNotOne(w.edges, u, dst, d);
      }
    } else {
      assert Hop(w, u, dst) == None && HopWritten(w, u, dst) == None;
    }
  }

  lemma OneIsNotFar(edges: Edges, u: Id, dst: Id)
    requires IsDistance(edges, u, dst, 1)
    ensures !IsFar(edges, u, dst)
  {
  }

  lemma DistanceIsNotOne(edges: Edges, u: Id, dst: Id, d: nat)
    requires 2 <= d && IsDistance(edges, u, dst, d)
    ensures !IsDistance(edges, u, dst, 1)
  {
  }

  /**
   The table as written is a shortest-path table exactly when everything that can be
   reached is a neighbour.
   */
  lemma DirectIsShortestExactly(u: Id, edges: Edges)
    requires u in edges
    ensures IsShortestTable(u, edges, CachedTable.Direct(u, edges))
            <==> forall v :: v != u && Reachable(edges, u, v) ==> v in edges[u]
  {
    var table := CachedTable.Direct(u, edges);
    forall v | v in table ensures Reachable(edges, u, v) && Begins(edges, u, table[v], v) {
      OneStepWalk(edges, u, v);
      assert Walk(edges, v, v, 0);
      assert forall k: nat :: k < 1 ==> !Walk(edges, u, v, k);
      assert IsDistance(edges, u, v, 0 + 1);
    }
  }

  /** Three nodes in a row. */
  function Row(): Edges {
    map[0 := {1}, 1 := {0, 2}, 2 := {1}]
  }

  /** The ends of the row are two hops apart. */
  lemma RowDistance()
    ensures IsDistance(Row(), 0, 2, 2)
  {
    OneStepWalk(Row(), 1, 2);
    OneStepWalk(Row(), 0, 2);
    assert 1 in Out(Row(), 0) && Walk(Row(), 1, 2, 1);
    forall k: nat | k < 2 ensures !Walk(Row(), 0, 2, k) {
    }
  }

  /** In the row the table as written leaves out the far end, although it can be reached. */
  lemma RowTableIsNotShortest()
    ensures Reachable(Row(), 0, 2) && 2 !in CachedTable.Direct(0, Row())
    ensures !IsShortestTable(0, Row(), CachedTable.Direct(0, Row()))
  {
    RowDistance();
    assert Walk(Row(), 0, 2, 2);
    DirectIsShortestExactly(0, Row());
  }

  /** On the tables as written the two lookups agree: there the table alone is at fault. */
  lemma DirectLookupsAgree(u: Id, edges: Edges, neighbors: map<Id, Channel>, dst: Id)
    ensures RouteAsWritten(CachedTable.Direct(u, edges), neighbors, dst)
            == RouteAsIntended(CachedTable.Direct(u, edges), neighbors, dst)
  {
  }

  /** So with the whole code as written the ends of the row cannot reach each other, though they are connected. */
  lemma RowIsCutOff(w: World)
    requires WiredAt(w, 0) && w.edges == Row() && w.tables(0) == CachedTable.Direct(0, Row())
    ensures HopWritten(w, 0, 2) == None && Reachable(w.edges, 0, 2)
  {
    RowDistance();
    WrittenReachesOnlyNeighbors(w, 0, 2);
    assert Walk(Row(), 0, 2, 2);
    assert !Walk(Row(), 0, 2, 1);
  }

  /** The row with shortest-path tables, each node using its neighbours' identifiers as channels. */
  function RowWorld(): World {
    World({0, 1, 2}, Row(),
          u => if u == 0 then map[1 := 1, 2 := 1] else if u == 1 then map[0 := 0, 2 := 2] else map[0 := 1, 1 := 1],
          u => if u == 0 then map[1 := 1] else if u == 1 then map[0 := 0, 2 := 2] else map[1 := 1],
          (u, c) => c)
  }

  /** There the lookup alone, on correct tables, cuts off the far end, which the next hop would reach. */
  lemma RowLookupFails()
    ensures WiredAt(RowWorld(), 0) && IsShortestTable(0, Row(), RowWorld().tables(0))
    ensures HopWritten(RowWorld(), 0, 2) == None && Hop(RowWorld(), 0, 2) == Some(1)
  {
    var table := RowWorld().tables(0);
    RowDistance();
    OneStepWalk(Row(), 0, 1);
    OneStepWalk(Row(), 1, 2);
    assert Walk(Row(), 1, 1, 0);
    assert forall k: nat :: k < 1 ==> !Walk(Row(), 0, 1, k);
    assert IsDistance(Row(), 0, 1, 0 + 1) && IsDistance(Row(), 0, 2, 1 + 1);
    assert Begins(Row(), 0, 1, 1) && Begins(Row(), 0, 1, 2);
    assert Walk(Row(), 0, 2, 2) && Walk(Row(), 0, 1, 1);
    forall v, k: nat | Walk(Row(), 0, v, k) ensures v in {0, 1, 2} {
      RowWalks(0, v, k);
    }
  }

  lemma {:induction false} RowWalks(u: Id, v: Id, k: nat)
    requires u in {0, 1, 2} && Walk(Row(), u, v, k)
    ensures v in {0, 1, 2}
    decreases k
  {
    if k > 0 {
      var x :| x in Out(Row(), u) && Walk(Row(), x, v, k - 1);
      RowWalks(x, v, k - 1);
    }
  }
}
