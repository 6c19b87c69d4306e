/** Announcement accounting: what every announcement of a run was made for. */
module Announcements {
  import opened Common
  import opened Sequence
  import opened LinkState
  import opened Limits

  /** Announcements made, and the two causes that do not show in the graph afterwards. */
  datatype Account = Account(sent: nat, keyChanges: nat, edgeChanges: nat)

  function Stateful(vertices: map<Id, Vertex>): set<Id> {
    set id | id in vertices && vertices[id].state.Some?
  }

  function Charge(g: Local, e: Event, a: Account): Account {
    if Emits(g, e).None? then a
    else
      match e
      case Insert(s, _) =>
        Account(a.sent + 1, a.keyChanges + (if s.id in Stateful(g.vertices) then 1 else 0), a.edgeChanges)
      case NeighborChange(_) =>
        Account(a.sent + 1, a.keyChanges, a.edgeChanges + 1)
  }

  ghost predicate Balanced(g: Local, a: Account) {
    && a.sent == |Stateful(g.vertices)| + a.keyChanges + a.edgeChanges
    && g.next == Wrap(a.sent)
  }

  lemma PlaceholdersStateful(vertices: map<Id, Vertex>, ids: set<Id>)
    ensures Stateful(WithPlaceholders(vertices, ids)) == Stateful(vertices)
  {
  }

  lemma StoringStateful(vertices: map<Id, Vertex>, id: Id, v: Vertex)
    requires v.state.Some?
    ensures Stateful(vertices[id := v]) == Stateful(vertices) + {id}
  {
  }

  lemma BootBalanced(route: Router, self: Id, key: Key, neighbors: set<Id>)
    requires |neighbors| <= MAX_NEIGHBORS
    ensures Balanced(Boot(route, self, key, neighbors), Account(1, 0, 0))
  {
    BootShape(route, self, key, neighbors);
    var known := Blank(self, key).(vertices := map[self := Vertex(Some(Seed(self, key)), {})]);
    AnnounceResult(route, known, neighbors);
    PlaceholdersStateful(known.vertices, neighbors);
    assert Stateful(Boot(route, self, key, neighbors).vertices) == {self};
  }

  /** An announcement adds no vertex with a state: the local one had its state already. */
  lemma AnnouncedStateful(g: Local, neighbors: set<Id>)
    requires LocalReady(g)
    ensures Stateful(Announced(g, neighbors)) == Stateful(g.vertices)
  {
    PlaceholdersStateful(g.vertices, neighbors);
    StoringStateful(WithPlaceholders(g.vertices, neighbors), g.self,
                    Vertex(Some(Announcement(g, neighbors)), neighbors));
  }

  lemma MergedStateful(g: Local, s: State, neighbors: set<Id>)
    requires LocalReady(g)
    ensures Stateful(Merged(g, s, neighbors)) == Stateful(g.vertices) + {s.id}
  {
    AnnouncedStateful(g, neighbors);
    var before := if Provokes(g, s) then Announced(g, neighbors) else g.vertices;
    PlaceholdersStateful(before, s.neighbors);
    StoringStateful(WithPlaceholders(before, s.neighbors), s.id, Vertex(Some(s), s.neighbors));
  }

  lemma MergedBalanced(g: Local, e: Event, a: Account, r: Local)
    requires Shape(g) && Balanced(g, a) && e.Insert? && !Stale(g, e.state)
    requires Stateful(r.vertices) == Stateful(g.vertices) + {e.state.id}
    requires r.next == if Provokes(g, e.state) then Wrap(g.next + 1) else g.next
    ensures Balanced(r, Charge(g, e, a))
  {
    WrapNext(a.sent);
    if e.state.id in Stateful(g.vertices) {
      assert Stateful(r.vertices) == Stateful(g.vertices);
    }
  }

  lemma InsertBalanced(route: Router, g: Local, e: Event, a: Account)
    requires Shape(g) && Possible(g, e) && Balanced(g, a) && e.Insert?
    ensures Balanced(React(route, g, e), Charge(g, e, a))
  {
    if !Stale(g, e.state) {
      InsertResult(route, g, e.state, e.neighbors);
      UpdateKeepsSelf(route, g, e.state, e.neighbors);
      MergedStateful(g, e.state, e.neighbors);
      MergedBalanced(g, e, a, React(route, g, e));
    }
  }

  lemma NeighborChangeBalanced(route: Router, g: Local, e: Event, a: Account)
    requires Shape(g) && Balanced(g, a) && e.NeighborChange?
    ensures Balanced(React(route, g, e), Charge(g, e, a))
  {
    if g.vertices[g.self].edges != e.neighbors {
      var g1 := SetEdges(route, g, g.self, e.neighbors);
      assert Stateful(g1.vertices) == Stateful(g.vertices) by {
        PlaceholdersStateful(g.vertices, e.neighbors);
        StoringStateful(WithPlaceholders(g.vertices, e.neighbors), g.self, g1.vertices[g.self]);
      }
      AnnounceResult(route, g1, e.neighbors);
      AnnouncedStateful(g1, e.neighbors);
      assert Stateful(React(route, g, e).vertices) == Stateful(g.vertices);
      WrapNext(a.sent);
    }
  }

  ghost function ChargeRun(routes: seq<Router>, g: Local, events: seq<Event>, final: Local, a: Account): Account
    requires Reaches(routes, g, events, final)
    decreases events
  {
    if events == [] then a
    else ChargeRun(routes[1..], React(routes[0], g, events[0]), events[1..], final, Charge(g, events[0], a))
  }

  /**
   In every reachable state the announcement counter is, modulo 2^32, the number of
   vertices holding a state plus the accepted key changes plus the neighbour changes that
   changed an edge.
   */
  lemma {:induction false} RunBalanced(routes: seq<Router>, g: Local, events: seq<Event>, final: Local, a: Account)
    requires Shape(g) && Balanced(g, a) && Reaches(routes, g, events, final)
    ensures Balanced(final, ChargeRun(routes, g, events, final, a))
    decreases events
  {
    if events != [] {
      ReactShape(routes[0], g, events[0]);
      if events[0].Insert? {
        InsertBalanced(routes[0], g, events[0], a);
      } else {
        NeighborChangeBalanced(routes[0], g, events[0], a);
      }
      RunBalanced(routes[1..], React(routes[0], g, events[0]), events[1..], final, Charge(g, events[0], a));
    }
  }

  /** Every state comes from a known node with its one key, and the neighbours never change. */
  ghost predicate Settled(ids: set<Id>, keyOf: Id -> Key, neighbors: set<Id>, e: Event) {
    && e.neighbors == neighbors
    && (e.Insert? ==> e.state.id in ids && e.state.key == keyOf(e.state.id))
  }

  ghost predicate SettledGraph(ids: set<Id>, keyOf: Id -> Key, neighbors: set<Id>, g: Local) {
    && Shape(g)
    && g.vertices[g.self].edges == neighbors
    && forall id :: id in Stateful(g.vertices) ==> id in ids && g.vertices[id].state.value.key == keyOf(id)
  }

  lemma ReactSettled(route: Router, ids: set<Id>, keyOf: Id -> Key, neighbors: set<Id>, g: Local, e: Event)
    requires SettledGraph(ids, keyOf, neighbors, g) && Settled(ids, keyOf, neighbors, e) && Possible(g, e)
    ensures SettledGraph(ids, keyOf, neighbors, React(route, g, e))
    ensures Emits(g, e).Some? ==> e.Insert? && e.state.id !in Stateful(g.vertices)
  {
    ReactShape(route, g, e);
    if e.Insert? && !Stale(g, e.state) {
      InsertResult(route, g, e.state, neighbors);
    }
  }

  lemma {:induction false} SettledRun(routes: seq<Router>, ids: set<Id>, keyOf: Id -> Key, neighbors: set<Id>,
                                      g: Local, events: seq<Event>, final: Local, a: Account)
    requires SettledGraph(ids, keyOf, neighbors, g) && Reaches(routes, g, events, final)
    requires forall e :: e in events ==> Settled(ids, keyOf, neighbors, e)
    ensures SettledGraph(ids, keyOf, neighbors, final)
    ensures var b := ChargeRun(routes, g, events, final, a);
            b.keyChanges == a.keyChanges && b.edgeChanges == a.edgeChanges
    decreases events
  {
    if events != [] {
      ReactSettled(routes[0], ids, keyOf, neighbors, g, events[0]);
      SettledRun(routes[1..], ids, keyOf, neighbors, React(routes[0], g, events[0]), events[1..], final,
                 Charge(g, events[0], a));
    }
  }

  /**
   From whatever graph a node has when keys and neighbours become fixed, it announces itself
   at most once for each node it holds no state of.
   */
  lemma AnnouncementBound(routes: seq<Router>, ids: set<Id>, keyOf: Id -> Key, neighbors: set<Id>,
                          g: Local, a: Account, events: seq<Event>, final: Local)
    requires SettledGraph(ids, keyOf, neighbors, g) && Balanced(g, a) && Reaches(routes, g, events, final)
    requires forall e :: e in events ==> Settled(ids, keyOf, neighbors, e)
    ensures ChargeRun(routes, g, events, final, a).sent - a.sent <= |ids| - |Stateful(g.vertices)|
  {
    RunBalanced(routes, g, events, final, a);
    SettledRun(routes, ids, keyOf, neighbors, g, events, final, a);
    SubsetSize(Stateful(final.vertices), ids);
  }

  /**
   The whole life of a node: it starts, goes through any changes of neighbours, and then its
   neighbours and all keys stay.  From then on it announces itself fewer than n times.
   */
  lemma AnnouncementsAfterSettling(routes1: seq<Router>, routes2: seq<Router>, start: Router, self: Id,
                                   ids: set<Id>, keyOf: Id -> Key, first: set<Id>, neighbors: set<Id>,
                                   events1: seq<Event>, mid: Local, events2: seq<Event>, final: Local)
    requires |first| <= MAX_NEIGHBORS && Reaches(routes1, Boot(start, self, keyOf(self), first), events1, mid)
    requires SettledGraph(ids, keyOf, neighbors, mid) && Reaches(routes2, mid, events2, final)
    requires forall e :: e in events2 ==> Settled(ids, keyOf, neighbors, e)
    ensures var g := Boot(start, self, keyOf(self), first);
            var a := ChargeRun(routes1, g, events1, mid, Account(1, 0, 0));
            ChargeRun(routes2, mid, events2, final, a).sent - a.sent < |ids|
  {
    var g := Boot(start, self, keyOf(self), first);
    BootShape(start, self, keyOf(self), first);
    BootBalanced(start, self, keyOf(self), first);
    RunBalanced(routes1, g, events1, mid, Account(1, 0, 0));
    var a := ChargeRun(routes1, g, events1, mid, Account(1, 0, 0));
    AnnouncementBound(routes2, ids, keyOf, neighbors, mid, a, events2, final);
    assert mid.self in Stateful(mid.vertices);
  }
}

/** The cached table: recomputed only when edges change, yet never out of date. */
module CachedTable {
  import opened Common
  import opened Sequence
  import opened LinkState
  import opened Limits

  /** The code's table: every neighbour by itself, and nothing else. */
  function Direct(self: Id, edges: Edges): Table {
    if self in edges then map id | id in edges[self] && id != self :: id else map[]
  }

  type Fits = (Id, Edges, Table) -> bool

  /** `route` always gives a fitting table, and a vertex without edges to or from it changes nothing. */
  ghost predicate Computes(route: Router, fits: Fits) {
    && (forall self: Id, edges: Edges :: self in edges ==> fits(self, edges, route(self, edges)))
    && (forall self: Id :: fits(self, map[self := {}], map[]))
    && (forall self: Id, edges: Edges, table: Table, id: Id ::
          fits(self, edges, table) && Unmentioned(edges, id) ==> fits(self, edges[id := {}], table))
  }

  ghost predicate Unmentioned(edges: Edges, id: Id) {
    id !in edges && forall v :: v in edges ==> id !in edges[v]
  }

  ghost predicate Coherent(fits: Fits, g: Local) {
    fits(g.self, EdgesOf(g.vertices), g.table)
  }

  lemma SetEdgesCoherent(route: Router, fits: Fits, g: Local, id: Id, neighbors: set<Id>)
    requires Computes(route, fits) && Coherent(fits, g) && id in g.vertices && g.self in g.vertices
    ensures Coherent(fits, SetEdges(route, g, id, neighbors))
  {
  }

  lemma StoreCoherent(route: Router, fits: Fits, g: Local, s: State)
    requires Computes(route, fits) && Coherent(fits, g) && s.id in g.vertices && g.self in g.vertices
    ensures Coherent(fits, Store(route, g, s))
  {
    var g1 := g.(vertices := g.vertices[s.id := g.vertices[s.id].(state := Some(s))]);
    assert EdgesOf(g1.vertices) == EdgesOf(g.vertices);
    SetEdgesCoherent(route, fits, g1, s.id, s.neighbors);
  }

  lemma AnnounceCoherent(route: Router, fits: Fits, g: Local, neighbors: set<Id>)
    requires Computes(route, fits) && Coherent(fits, g) && LocalReady(g)
    ensures Coherent(fits, Announce(route, g, neighbors))
  {
    var counted := g.(next := Wrap(g.next + 1));
    if !Stale(counted, Announcement(g, neighbors)) {
      StoreCoherent(route, fits, counted, Announcement(g, neighbors));
    }
  }

  lemma UpdateCoherent(route: Router, fits: Fits, g: Local, s: State, neighbors: set<Id>)
    requires Computes(route, fits) && Coherent(fits, g) && LocalReady(g) && Receivable(g, s) && Closed(g)
    ensures Coherent(fits, Update(route, g, s, neighbors))
  {
    if Stale(g, s) {
    } else if s.id in g.vertices {
      if Provokes(g, s) {
        AnnounceCoherent(route, fits, g, neighbors);
      }
      StoreCoherent(route, fits, if Provokes(g, s) then Announce(route, g, neighbors) else g, s);
    } else {
      var known := g.(vertices := g.vertices[s.id := Vertex(Some(s), {})]);
      assert EdgesOf(known.vertices) == EdgesOf(g.vertices)[s.id := {}];
      var edges := EdgesOf(g.vertices);
      assert Unmentioned(edges, s.id);
      AnnounceCoherent(route, fits, known, neighbors);
      var announced := Announce(route, known, neighbors);
      if announced.vertices[s.id].state.Some? {
        SetEdgesCoherent(route, fits, announced, s.id, announced.vertices[s.id].state.value.neighbors);
      }
    }
  }

  lemma BootCoherent(route: Router, fits: Fits, self: Id, key: Key, neighbors: set<Id>)
    requires Computes(route, fits) && |neighbors| <= MAX_NEIGHBORS
    ensures Coherent(fits, Boot(route, self, key, neighbors))
  {
    var known := Blank(self, key).(vertices := map[self := Vertex(Some(Seed(self, key)), {})]);
    assert EdgesOf(known.vertices) == map[self := {}];
    AnnounceCoherent(route, fits, known, neighbors);
    var announced := Announce(route, known, neighbors);
    if announced.vertices[self].state.Some? {
      SetEdgesCoherent(route, fits, announced, self, announced.vertices[self].state.value.neighbors);
    }
  }

  lemma ReactCoherent(route: Router, fits: Fits, g: Local, e: Event)
    requires Computes(route, fits) && Coherent(fits, g) && LocalReady(g) && Closed(g)
    requires e.Insert? ==> Receivable(g, e.state)
    ensures Coherent(fits, React(route, g, e))
  {
    match e {
      case Insert(s, neighbors) => UpdateCoherent(route, fits, g, s, neighbors);
      case NeighborChange(neighbors) =>
        SetEdgesCoherent(route, fits, g, g.self, neighbors);
        AnnounceCoherent(route, fits, SetEdges(route, g, g.self, neighbors), neighbors);
    }
  }

  /** An exception leaves the table as coherent as the edges it leaves. */
  lemma BrokenCoherent(route: Router, fits: Fits, g: Local, e: Event)
    requires Computes(route, fits) && Coherent(fits, g) && LocalReady(g) && Closed(g)
    ensures Coherent(fits, Broken(route, g, e))
  {
    match e {
      case Insert(s, _) =>
        if s.id !in g.vertices {
          assert EdgesOf(Entered(g, s).vertices) == EdgesOf(g.vertices)[s.id := {}];
          assert Unmentioned(EdgesOf(g.vertices), s.id);
        }
      case NeighborChange(neighbors) => SetEdgesCoherent(route, fits, g, g.self, neighbors);
    }
  }

  /**
   After every operation of any run, exceptions included, the cached table is one a fresh
   computation could give, even if each computation breaks ties in its own way.
   */
  lemma {:induction false} RunCoherent(routes: seq<Router>, fits: Fits, g: Local, events: seq<Event>, final: Local)
    requires forall r :: r in routes ==> Computes(r, fits)
    requires Coherent(fits, g) && LocalReady(g) && Closed(g) && Tries(routes, g, events, final)
    ensures Coherent(fits, final)
    decreases events
  {
    if events != [] {
      var next := Attempt(routes[0], g, events[0]).local;
      AttemptStaysReady(routes[0], g, events[0]);
      ReactCoherent(routes[0], fits, g, events[0]);
      BrokenCoherent(routes[0], fits, g, events[0]);
      RunCoherent(routes[1..], fits, next, events[1..], final);
    }
  }

  /** A run without exceptions is one of those. */
  lemma {:induction false} ReachesTries(routes: seq<Router>, g: Local, events: seq<Event>, final: Local)
    requires Shape(g) && Reaches(routes, g, events, final)
    ensures Tries(routes, g, events, final)
    decreases events
  {
    if events != [] {
      ReactShape(routes[0], g, events[0]);
      ReachesTries(routes[1..], React(routes[0], g, events[0]), events[1..], final);
    }
  }

  lemma DirectComputes(fits: Fits)
    requires forall self: Id, edges: Edges, table: Table :: fits(self, edges, table) <==> table == Direct(self, edges)
    ensures Computes(Direct, fits)
  {
    forall self: Id, edges: Edges, id: Id | Unmentioned(edges, id)
      ensures Direct(self, edges[id := {}]) == Direct(self, edges)
    {
    }
  }

  /** As the code computes it, the table of a started node is at all times n -> n for each neighbour n. */
  lemma DirectTableAlways(routes: seq<Router>, self: Id, key: Key, neighbors: set<Id>, events: seq<Event>, final: Local)
    requires |neighbors| <= MAX_NEIGHBORS && forall r :: r in routes ==> r == Direct
    requires Tries(routes, Boot(Direct, self, key, neighbors), events, final)
    ensures final.self == self && self in final.vertices
    ensures final.table == map id | id in final.vertices[self].edges && id != self :: id
  {
    var fits: Fits := (self, edges, table) => table == Direct(self, edges);
    var g := Boot(Direct, self, key, neighbors);
    BootShape(Direct, self, key, neighbors);
    TriesStayReady(routes, g, events, final);
    assert Coherent(fits, final) by {
      DirectComputes(fits);
      BootCoherent(Direct, fits, self, key, neighbors);
      RunCoherent(routes, fits, g, events, final);
    }
  }
}
