/** From flooded link states to delivered messages. */
module EndToEnd {
  import opened Common
  import opened LinkState
  import opened Limits
  import opened Merge
  import opened StateNetwork
  import opened Convergence
  import opened Paths
  import opened CachedTable
  import opened RoutingObjects
  import opened Forwarding
  import F = Flood

  /** A computation that always gives a shortest-path table. */
  ghost predicate FindsShortest(route: Router) {
    forall self: Id, edges: Edges :: self in edges ==> IsShortestTable(self, edges, route(self, edges))
  }

  /** The vertices the edges mention. */
  function Everyone(edges: Edges): set<Id> {
    edges.Keys + set u, w | u in edges && w in edges[u] :: w
  }

  lemma {:induction false} WalkEndsKnown(edges: Edges, u: Id, v: Id, k: nat)
    requires u in edges && Walk(edges, u, v, k)
    ensures v in Everyone(edges)
    decreases k
  {
    if k > 0 {
      var w :| w in Out(edges, u) && Walk(edges, w, v, k - 1);
      if w in edges { WalkEndsKnown(edges, w, v, k - 1); }
    }
  }

  /** Among the walks to a vertex there is a shortest one. */
  lemma {:induction false} ShortestWalk(edges: Edges, u: Id, v: Id, k: nat)
    requires Walk(edges, u, v, k)
    ensures exists d: nat :: IsDistance(edges, u, v, d)
    decreases k
  {
    if j: nat :| j < k && Walk(edges, u, v, j) {
      ShortestWalk(edges, u, v, j);
    } else {
      assert IsDistance(edges, u, v, k);
    }
  }

  lemma SomeHopBegins(edges: Edges, u: Id, v: Id)
    requires Reachable(edges, u, v) && u != v
    ensures exists hop :: Begins(edges, u, hop, v)
  {
    var k: nat :| Walk(edges, u, v, k);
    ShortestWalk(edges, u, v, k);
    var d: nat :| IsDistance(edges, u, v, d);
    assert d > 0 by { assert Walk(edges, u, v, d); }
    var hop :| hop in Out(edges, u) && Walk(edges, hop, v, d - 1);
    assert Begins(edges, u, hop, v);
  }

  ghost function SomeHop(edges: Edges, u: Id, v: Id): Id
    requires Reachable(edges, u, v) && u != v
  {
    SomeHopBegins(edges, u, v);
    var hop :| Begins(edges, u, hop, v);
    hop
  }

  ghost function ShortestTable(self: Id, edges: Edges): (table: Table)
    requires self in edges
    ensures IsShortestTable(self, edges, table)
  {
    var table := map v | v in Everyone(edges) && v != self && Reachable(edges, self, v) :: SomeHop(edges, self, v);
    assert forall v :: v != self && Reachable(edges, self, v) ==> v in table by {
      forall v, k: nat | Walk(edges, self, v, k) ensures v in Everyone(edges) {
        WalkEndsKnown(edges, self, v, k);
      }
    }
    table
  }

  /**
   Whatever shortest-path tables the at most two computations of one step came to, ties
   broken in any way, some computation of this kind gives just these.
   */
  lemma RouterForStep(self: Id, edges1: Edges, table1: Table, edges2: Edges, table2: Table)
    requires IsShortestTable(self, edges1, table1) && IsShortestTable(self, edges2, table2)
    requires edges1 == edges2 ==> table1 == table2
    ensures exists route: Router ::
              FindsShortest(route) && route(self, edges1) == table1 && route(self, edges2) == table2
  {
    var route: Router := (x: Id, edges: Edges) =>
      if x == self && edges == edges1 then table1
      else if x == self && edges == edges2 then table2
      else if x in edges then ShortestTable(x, edges)
      else map[];
    forall x: Id, edges: Edges | x in edges ensures IsShortestTable(x, edges, route(x, edges)) {
    }
    assert FindsShortest(route) && route(self, edges1) == table1 && route(self, edges2) == table2;
  }

  lemma EmptyIsShortest(self: Id)
    ensures IsShortestTable(self, map[self := {}], map[])
  {
    forall v, k: nat | Walk(map[self := {}], self, v, k) ensures v == self {
    }
    assert forall v :: v != self ==> !Reachable(map[self := {}], self, v);
  }

  /** What the tables are to be. */
  ghost function Shortest(): Fits {
    (self: Id, edges: Edges, table: Table) => IsShortestTable(self, edges, table)
  }

  lemma ShortestComputes(route: Router)
    requires FindsShortest(route)
    ensures Computes(route, Shortest())
  {
    var fits := Shortest();
    forall self: Id ensures fits(self, map[self := {}], map[]) {
      EmptyIsShortest(self);
    }
    forall self: Id, edges: Edges, table: Table, id: Id | fits(self, edges, table) && Unmentioned(edges, id)
      ensures fits(self, edges[id := {}], table)
    {
      assert SameOut(edges, edges[id := {}]);
      SameTables(self, edges, edges[id := {}], table);
    }
  }

  /** Every step of a run computes shortest-path tables, each with ties broken in its own way. */
  ghost predicate AllFindShortest(routes: seq<Router>) {
    forall route :: route in routes ==> FindsShortest(route)
  }

  /**
   With shortest-path computations the cached table of a started node is at all times a
   shortest-path table of the edges it then has, although it is recomputed only when an
   edge changes, and whatever exceptions the run meets.
   */
  lemma ShortestTableAlways(start: Router, routes: seq<Router>, self: Id, key: Key, neighbors: set<Id>,
                            events: seq<LinkState.Event>, final: Local)
    requires FindsShortest(start) && AllFindShortest(routes) && |neighbors| <= MAX_NEIGHBORS
    requires Tries(routes, Boot(start, self, key, neighbors), events, final)
    ensures IsShortestTable(final.self, EdgesOf(final.vertices), final.table)
  {
    forall route | route in routes ensures Computes(route, Shortest()) {
      ShortestComputes(route);
    }
    ShortestComputes(start);
    BootShape(start, self, key, neighbors);
    BootCoherent(start, Shortest(), self, key, neighbors);
    RunCoherent(routes, Shortest(), Boot(start, self, key, neighbors), events, final);
  }

  // ----- the tables of all nodes of a network -----

  ghost predicate TablesFit(t: F.Topology, sys: Sys, fits: Fits)
    requires Valid(t, sys)
  {
    forall v :: 0 <= v < t.nodes ==> Coherent(fits, sys.nodes[v])
  }

  lemma NextTablesFit(t: F.Topology, route: Router, sys: Sys, m: Move, fits: Fits)
    requires Valid(t, sys) && Allowed(t, sys, m) && Computes(route, fits) && TablesFit(t, sys, fits)
    ensures Valid(t, Next(t, route, sys, m)) && TablesFit(t, Next(t, route, sys, m), fits)
  {
    NextKeepsValid(t, route, sys, m);
    if m.Hear? {
      var v := t.owner[m.packet.port];
      var g, e := sys.nodes[v], Insert(sys.book[m.s][m.packet.n], m.neighbors);
      assert NodeOk(sys.book, v, sys.rows[v], g);
      if !Stale(g, e.state) {
        HeardIsRemote(t, sys, m.s, m.packet, m.neighbors);
        ReactCoherent(route, fits, g, e);
      }
    } else if m.Rewire? {
      assert NodeOk(sys.book, m.v, sys.rows[m.v], sys.nodes[m.v]);
      ReactCoherent(route, fits, sys.nodes[m.v], NeighborChange(m.neighbors));
    }
  }

  lemma {:induction false} RunTablesFit(t: F.Topology, routes: seq<Router>, sys: Sys, moves: seq<Move>, final: Sys,
                                        fits: Fits)
    requires Valid(t, sys) && Runs(t, routes, sys, moves, final) && TablesFit(t, sys, fits)
    requires forall route :: route in routes ==> Computes(route, fits)
    ensures Valid(t, final) && TablesFit(t, final, fits)
    decreases moves
  {
    if moves != [] {
      NextTablesFit(t, routes[0], sys, moves[0], fits);
      RunTablesFit(t, routes[1..], Next(t, routes[0], sys, moves[0]), moves[1..], final, fits);
    }
  }

  lemma SettledOut(t: F.Topology, routes: seq<Router>, sys: Sys, moves: seq<Move>, final: Sys, u: nat)
    requires Ran(t, routes, sys, moves, final) && AllSettled(t, sys, final) && u < t.nodes
    ensures |final.nodes| == t.nodes
    ensures SameOut(EdgesOf(final.nodes[u].vertices), EdgesOf(final.nodes[0].vertices))
  {
    RunRefines(t, routes, sys, moves, final, u);
    forall x ensures Out(EdgesOf(final.nodes[u].vertices), x) == Out(EdgesOf(final.nodes[0].vertices), x) {
      GraphsAgree(t, routes, sys, moves, final, u, 0, x);
    }
  }

  /** A run over fixed, reliable channels after which every node has announced itself and all is quiet. */
  ghost predicate Quieted(t: F.Topology, routes: seq<Router>, sys: Sys, moves: seq<Move>, final: Sys) {
    && Ran(t, routes, sys, moves, final) && AllSettled(t, sys, final)
    && AllFindShortest(routes) && TablesFit(t, sys, Shortest())
  }

  /** Once the network has settled, every node's table is a shortest-path table of one and the same graph. */
  lemma SettledTables(t: F.Topology, routes: seq<Router>, sys: Sys, moves: seq<Move>, final: Sys, u: nat)
    requires Quieted(t, routes, sys, moves, final) && u < t.nodes
    ensures |final.nodes| == t.nodes
    ensures IsShortestTable(u, EdgesOf(final.nodes[0].vertices), final.nodes[u].table)
  {
    forall route | route in routes ensures Computes(route, Shortest()) {
      ShortestComputes(route);
    }
    RunTablesFit(t, routes, sys, moves, final, Shortest());
    SettledOut(t, routes, sys, moves, final, u);
    assert NodeOk(final.book, u, final.rows[u], final.nodes[u]);
    assert Coherent(Shortest(), final.nodes[u]);
    SameTables(u, EdgesOf(final.nodes[u].vertices), EdgesOf(final.nodes[0].vertices), final.nodes[u].table);
  }

  // ----- neighbours and channels -----

  /** The nodes at the other ends of a node's channels. */
  ghost function FarEnds(t: F.Topology, u: nat): set<Id>
    requires t.Valid()
  {
    set p | p in t.Ports(u) :: t.Far(p)
  }

  /** Hellos read one after another, each at one of the node's ports: the first of a sender fixes its channel. */
  ghost function Greet(t: F.Topology, u: nat, neighbors: map<Id, Channel>, ports: seq<nat>): map<Id, Channel>
    requires t.Valid() && forall p :: p in ports ==> p in t.Ports(u)
    decreases ports
  {
    if ports == [] then neighbors
    else
      assert ports[0] in ports && ports[0] in t.Ports(u);
      var id := t.Far(ports[0]);
      Greet(t, u, if id in neighbors then neighbors else neighbors[id := ports[0]], ports[1..])
  }

  /** Every node a channel leads to is a neighbour, through a channel that leads there. */
  ghost predicate Greeted(t: F.Topology, u: nat, neighbors: map<Id, Channel>)
    requires t.Valid()
  {
    && neighbors.Keys == FarEnds(t, u)
    && forall n :: n in neighbors ==> neighbors[n] in t.Ports(u) && t.Far(neighbors[n]) == n
  }

  lemma {:induction false} GreetGrows(t: F.Topology, u: nat, neighbors: map<Id, Channel>, ports: seq<nat>)
    requires t.Valid() && forall p :: p in ports ==> p in t.Ports(u)
    requires forall n :: n in neighbors ==> neighbors[n] in t.Ports(u) && t.Far(neighbors[n]) == n
    ensures var r := Greet(t, u, neighbors, ports);
            && (forall n :: n in r ==> r[n] in t.Ports(u) && t.Far(r[n]) == n)
            && neighbors.Keys <= r.Keys && forall p :: p in ports ==> t.Far(p) in r
    decreases ports
  {
    if ports != [] {
      assert ports[0] in ports;
      var id := t.Far(ports[0]);
      GreetGrows(t, u, if id in neighbors then neighbors else neighbors[id := ports[0]], ports[1..]);
    }
  }

  /** Once a Hello has come in at every port, in any order, the neighbours are what the channels say. */
  lemma HellosGreet(t: F.Topology, u: nat, ports: seq<nat>)
    requires t.Valid() && forall p :: p in ports <==> p in t.Ports(u)
    ensures Greeted(t, u, Greet(t, u, map[], ports))
  {
    GreetGrows(t, u, map[], ports);
    var r := Greet(t, u, map[], ports);
    assert r.Keys <= FarEnds(t, u);
    assert FarEnds(t, u) <= r.Keys;
  }

  /** The newest announcement of every node lists the nodes its channels lead to. */
  ghost predicate AnnouncedWiring(t: F.Topology, final: Sys) {
    t.Valid() && |final.book| == t.nodes &&
    forall u :: 0 <= u < t.nodes ==>
      final.book[u] != [] && final.book[u][|final.book[u]| - 1].neighbors == FarEnds(t, u)
  }

  /** If the move is one of `u`, the node has heard a Hello on every channel by then. */
  ghost predicate GreetedMove(t: F.Topology, u: nat, m: Move)
    requires t.Valid()
  {
    match m
    case Hear(_, pk, neighbors, _) => pk.port < |t.owner| && t.owner[pk.port] == u ==> neighbors == FarEnds(t, u)
    case Miss(_, _) => true
    case Rewire(v, neighbors, _) => v == u ==> neighbors == FarEnds(t, u)
  }

  ghost predicate GreetedThroughout(t: F.Topology, sys: Sys, moves: seq<Move>, final: Sys, u: nat)
    requires t.Valid()
  {
    u < |sys.book| == |final.book| && |sys.book[u]| < |final.book[u]| && forall m :: m in moves ==> GreetedMove(t, u, m)
  }

  /** From some point of the run on `u`'s Hellos are in, and it has announced itself since. */
  ghost predicate EndsGreeted(t: F.Topology, routes: seq<Router>, sys: Sys, moves: seq<Move>, final: Sys, u: nat)
    requires Valid(t, sys) && Runs(t, routes, sys, moves, final)
    decreases moves
  {
    || GreetedThroughout(t, sys, moves, final, u)
    || (moves != []
        && (NextKeepsValid(t, routes[0], sys, moves[0]);
            EndsGreeted(t, routes[1..], Next(t, routes[0], sys, moves[0]), moves[1..], final, u)))
  }

  /** One greeted move leaves `u`'s announcements alone, or adds one that lists its far ends. */
  lemma GreetedMoveLists(t: F.Topology, route: Router, sys: Sys, m: Move, u: nat)
    requires Valid(t, sys) && Allowed(t, sys, m) && GreetedMove(t, u, m) && u < t.nodes
    ensures Valid(t, Next(t, route, sys, m))
    ensures var book, book' := sys.book[u], Next(t, route, sys, m).book[u];
            book' == book || (|book'| == |book| + 1 && book'[|book|].neighbors == FarEnds(t, u))
  {
    NextKeepsValid(t, route, sys, m);
    if m.Hear? {
      var v := t.owner[m.packet.port];
      assert NodeOk(sys.book, v, sys.rows[v], sys.nodes[v]);
    } else if m.Rewire? {
      assert NodeOk(sys.book, m.v, sys.rows[m.v], sys.nodes[m.v]);
    }
    hide React, NodeOk, FlightOk, Stale, Provokes, Throws;
  }

  ghost predicate ListsSince(t: F.Topology, book: seq<State>, book': seq<State>, u: nat)
    requires t.Valid()
  {
    book' == book || (|book| < |book'| && book'[|book'| - 1].neighbors == FarEnds(t, u))
  }

  lemma {:induction false} GreetedRunLists(t: F.Topology, routes: seq<Router>, sys: Sys, moves: seq<Move>, final: Sys,
                                           u: nat)
    requires Valid(t, sys) && Runs(t, routes, sys, moves, final) && u < t.nodes
    requires forall m :: m in moves ==> GreetedMove(t, u, m)
    ensures Valid(t, final) && ListsSince(t, sys.book[u], final.book[u], u)
    decreases moves
  {
    if moves != [] {
      GreetedMoveLists(t, routes[0], sys, moves[0], u);
      hide FarEnds, Valid, Next;
      GreetedRunLists(t, routes[1..], Next(t, routes[0], sys, moves[0]), moves[1..], final, u);
    }
  }

  /** Then its newest announcement lists its far ends. */
  lemma {:induction false} EndsGreetedLists(t: F.Topology, routes: seq<Router>, sys: Sys, moves: seq<Move>, final: Sys,
                                            u: nat)
    requires Valid(t, sys) && Runs(t, routes, sys, moves, final) && u < t.nodes
    requires EndsGreeted(t, routes, sys, moves, final, u)
    ensures |final.book| == t.nodes && final.book[u] != []
    ensures final.book[u][|final.book[u]| - 1].neighbors == FarEnds(t, u)
    decreases moves
  {
    RunRefines(t, routes, sys, moves, final, u);
    if GreetedThroughout(t, sys, moves, final, u) {
      GreetedRunLists(t, routes, sys, moves, final, u);
    } else {
      NextKeepsValid(t, routes[0], sys, moves[0]);
      hide GreetedThroughout, FarEnds, Next, NodeOk, FlightOk;
      EndsGreetedLists(t, routes[1..], Next(t, routes[0], sys, moves[0]), moves[1..], final, u);
    }
  }

  /** So when this holds of all, the announced edges are the channels. */
  lemma GreetedNetworkAnnouncesWiring(t: F.Topology, routes: seq<Router>, sys: Sys, moves: seq<Move>, final: Sys)
    requires Valid(t, sys) && Runs(t, routes, sys, moves, final) && 0 < t.nodes
    requires forall u :: 0 <= u < t.nodes ==> EndsGreeted(t, routes, sys, moves, final, u)
    ensures AnnouncedWiring(t, final)
  {
    EndsGreetedLists(t, routes, sys, moves, final, 0);
    assert t.Valid();
    hide EndsGreeted, Runs, Valid, FarEnds;
    forall u | 0 <= u < t.nodes
      ensures |final.book| == t.nodes && final.book[u] != []
              && final.book[u][|final.book[u]| - 1].neighbors == FarEnds(t, u)
    {
      EndsGreetedLists(t, routes, sys, moves, final, u);
    }
  }

  /** The world the messages travel in: one node's edges, every node's own table and neighbours, the channels. */
  ghost function Laid(t: F.Topology, final: Sys, neighbors: Id -> map<Id, Channel>): World
    requires t.Valid() && 0 < t.nodes == |final.nodes|
  {
    World(Indices(t.nodes), EdgesOf(final.nodes[0].vertices),
          (u: Id) => if u < |final.nodes| then final.nodes[u].table else map[],
          neighbors,
          (u: Id, c: Channel) => if c < |t.owner| then t.Far(c) else u)
  }

  function Indices(n: nat): (r: set<nat>)
    ensures forall u :: u in r <==> 0 <= u < n
  {
    if n == 0 then {} else Indices(n - 1) + {n - 1}
  }

  /** In the settled network the edges of every node are its channels. */
  lemma EdgesAreChannels(t: F.Topology, routes: seq<Router>, sys: Sys, moves: seq<Move>, final: Sys, u: nat)
    requires Ran(t, routes, sys, moves, final) && AllSettled(t, sys, final) && AnnouncedWiring(t, final) && u < t.nodes
    ensures |final.nodes| == t.nodes
    ensures Out(EdgesOf(final.nodes[0].vertices), u) == FarEnds(t, u)
  {
    StatesConverge(t, routes, sys, moves, final, u, 0);
    RunRefines(t, routes, sys, moves, final, u);
    EdgesFollowState(t, final, 0, u);
    assert final.nodes[0].vertices[u].edges == FarEnds(t, u);
  }

  /** So the channels of the neighbours lead where the edges say. */
  lemma ChannelsWire(t: F.Topology, routes: seq<Router>, sys: Sys, moves: seq<Move>, final: Sys,
                     neighbors: Id -> map<Id, Channel>)
    requires Ran(t, routes, sys, moves, final) && AllSettled(t, sys, final) && AnnouncedWiring(t, final)
    requires 0 < t.nodes == |final.nodes| && forall u: nat :: u < t.nodes ==> Greeted(t, u, neighbors(u))
    ensures Wired(Laid(t, final, neighbors))
  {
    var w := Laid(t, final, neighbors);
    forall u | u in w.nodes ensures WiredAt(w, u) {
      EdgesAreChannels(t, routes, sys, moves, final, u);
      assert Greeted(t, u, neighbors(u));
    }
  }

  /** Paths of channels and walks along edges are the same thing. */
  lemma {:induction false} WalksAreLinks(t: F.Topology, edges: Edges, u: nat, v: Id, k: nat)
    requires t.Valid() && u < t.nodes && forall x :: 0 <= x < t.nodes ==> Out(edges, x) == FarEnds(t, x)
    requires Walk(edges, u, v, k)
    ensures exists ports :: |ports| == k && F.Linked(t, u, ports, v)
    decreases k
  {
    if k == 0 {
      assert F.Linked(t, u, [], v);
    } else {
      var w :| w in Out(edges, u) && Walk(edges, w, v, k - 1);
      var p :| p in t.Ports(u) && t.Far(p) == w;
      WalksAreLinks(t, edges, w, v, k - 1);
      var rest :| |rest| == k - 1 && F.Linked(t, w, rest, v);
      assert ([p] + rest)[1..] == rest;
      assert F.Linked(t, u, [p] + rest, v);
    }
  }

  lemma {:induction false} LinksAreWalks(t: F.Topology, edges: Edges, u: nat, v: Id, ports: seq<nat>)
    requires t.Valid() && u < t.nodes && forall x :: 0 <= x < t.nodes ==> Out(edges, x) == FarEnds(t, x)
    requires F.Linked(t, u, ports, v)
    ensures Walk(edges, u, v, |ports|)
    decreases ports
  {
    if ports != [] {
      var w := t.Far(ports[0]);
      assert ports[0] in t.Ports(u) && w in Out(edges, u);
      LinksAreWalks(t, edges, w, v, ports[1..]);
    }
  }

  // ----- delivery -----

  /** With correct tables and channels a message takes exactly the hop distance, and what has none is dropped. */
  lemma DeliversWhenWired(w: World, u: Id, dst: Id, d: int)
    requires Wired(w) && ShortestTables(w) && u in w.nodes && IsDistance(w.edges, u, dst, d)
    ensures d < 0 ==> Hop(w, u, dst) == None
    ensures 0 <= d ==> Trip(w, u, dst, d) == Some(dst)
    ensures forall k: nat :: k < d ==>
              Trip(w, u, dst, k).Some? && IsDistance(w.edges, Trip(w, u, dst, k).value, dst, d - k)
  {
    if d < 0 {
      UnreachableIsDropped(w, u, dst);
    } else {
      Arrives(w, u, dst, d, d);
      forall k: nat | k < d
        ensures Trip(w, u, dst, k).Some? && IsDistance(w.edges, Trip(w, u, dst, k).value, dst, d - k)
      {
        Arrives(w, u, dst, d, k);
      }
    }
  }

  /**
   From channels to delivery.  The channels became fixed and reliable, Hellos came in on all
   of them, every node announced itself since, all is quiet, and the nodes are connected.
   Then a message from any node to any other arrives over a shortest path of channels.
   */
  lemma SettledNetworkDelivers(t: F.Topology, routes: seq<Router>, sys: Sys, moves: seq<Move>, final: Sys,
                               neighbors: Id -> map<Id, Channel>, u: nat, dst: nat)
    requires Quieted(t, routes, sys, moves, final)
    requires forall x :: 0 <= x < t.nodes ==> EndsGreeted(t, routes, sys, moves, final, x)
    requires u < t.nodes == |final.nodes| && dst < t.nodes
    requires forall x: nat :: x < t.nodes ==> Greeted(t, x, neighbors(x))
    ensures exists ports ::
              && F.Linked(t, u, ports, dst) && Trip(Laid(t, final, neighbors), u, dst, |ports|) == Some(dst)
              && forall other :: F.Linked(t, u, other, dst) ==> |ports| <= |other|
  {
    var w := Laid(t, final, neighbors);
    GreetedNetworkAnnouncesWiring(t, routes, sys, moves, final);
    hide EndsGreeted;
    ChannelsWire(t, routes, sys, moves, final, neighbors);
    forall x | x in w.nodes ensures IsShortestTable(x, w.edges, w.tables(x)) {
      SettledTables(t, routes, sys, moves, final, x);
    }
    forall x | 0 <= x < t.nodes ensures Out(w.edges, x) == FarEnds(t, x) {
      EdgesAreChannels(t, routes, sys, moves, final, x);
    }
    assert F.Connected(t, u, dst);
    DeliversOverChannels(t, w, u, dst);
  }

  lemma DeliversOverChannels(t: F.Topology, w: World, u: nat, dst: nat)
    requires t.Valid() && u < t.nodes && F.Connected(t, u, dst)
    requires Wired(w) && ShortestTables(w) && u in w.nodes
    requires forall x :: 0 <= x < t.nodes ==> Out(w.edges, x) == FarEnds(t, x)
    ensures exists ports ::
              && F.Linked(t, u, ports, dst) && Trip(w, u, dst, |ports|) == Some(dst)
              && forall other :: F.Linked(t, u, other, dst) ==> |ports| <= |other|
  {
    var path :| F.Linked(t, u, path, dst);
    LinksAreWalks(t, w.edges, u, dst, path);
    ShortestWalk(w.edges, u, dst, |path|);
    var d: nat :| IsDistance(w.edges, u, dst, d);
    DeliversWhenWired(w, u, dst, d);
    WalksAreLinks(t, w.edges, u, dst, d);
    var ports :| |ports| == d && F.Linked(t, u, ports, dst);
    forall other | F.Linked(t, u, other, dst) ensures |ports| <= |other| {
      LinksAreWalks(t, w.edges, u, dst, other);
    }
  }

  /** A started network satisfies what the results above ask of the network they start from. */
  lemma BootedTablesFit(t: F.Topology, route: Router, keyOf: Id -> Key, neighborsOf: Id -> set<Id>, fits: Fits)
    requires t.Valid() && Computes(route, fits) && forall v: Id :: |neighborsOf(v)| <= MAX_NEIGHBORS
    ensures Valid(t, Booted(t, route, keyOf, neighborsOf)) && TablesFit(t, Booted(t, route, keyOf, neighborsOf), fits)
  {
    BootedIsValid(t, route, keyOf, neighborsOf);
    forall v | 0 <= v < t.nodes ensures Coherent(fits, Booted(t, route, keyOf, neighborsOf).nodes[v]) {
      BootCoherent(route, fits, v, keyOf(v), neighborsOf(v));
    }
  }
}
