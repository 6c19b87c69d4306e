/**
 What one node's link-state graph holds, as a value: the state each vertex stores, the
 edges each vertex has, the local announcement counter and the cached next-hop table.
 `GraphObjects` proves that the object graph updated in place goes through these values.
 */
module LinkState {
  import opened Common
  import opened Sequence
  import opened Limits

  /** A node's identifier; identifiers are only ever compared. */
  type Id = nat
  /** An opaque key-agreement key; keys are only ever compared. */
  type Key = nat
  type Table = map<Id, Id>
  type Edges = map<Id, set<Id>>
  /** How a table is computed from the local identifier and the edges of every vertex. */
  type Router = (Id, Edges) -> Table

  datatype State = State(id: Id, sequence: uint32, key: Key, neighbors: set<Id>)

  datatype Vertex = Vertex(state: Option<State>, edges: set<Id>)

  datatype Local = Local(self: Id, key: Key, next: uint32, vertices: map<Id, Vertex>, table: Table)

  function EdgesOf(vertices: map<Id, Vertex>): Edges {
    map id | id in vertices :: vertices[id].edges
  }

  /** Vertices known only as somebody's neighbour have neither state nor edges. */
  function WithPlaceholders(vertices: map<Id, Vertex>, ids: set<Id>): map<Id, Vertex> {
    (map id | id in ids :: Vertex(None, {})) + vertices
  }

  function SetEdges(route: Router, g: Local, id: Id, neighbors: set<Id>): (r: Local)
    requires id in g.vertices
    ensures g.vertices.Keys <= r.vertices.Keys
  {
    if g.vertices[id].edges == neighbors then g
    else
      var vertices := WithPlaceholders(g.vertices, neighbors)[id := g.vertices[id].(edges := neighbors)];
      g.(vertices := vertices, table := route(g.self, EdgesOf(vertices)))
  }

  /** Replaces the state stored for a known vertex and takes over its neighbours. */
  function Store(route: Router, g: Local, s: State): (r: Local)
    requires s.id in g.vertices
    ensures g.vertices.Keys <= r.vertices.Keys
  {
    SetEdges(route, g.(vertices := g.vertices[s.id := g.vertices[s.id].(state := Some(s))]), s.id, s.neighbors)
  }

  /** The stored state is at least as new. */
  predicate Stale(g: Local, s: State) {
    s.id in g.vertices && g.vertices[s.id].state.Some?
    && CompareSequence(s.sequence, g.vertices[s.id].state.value.sequence) <= 0
  }

  /** News that makes the node announce itself again: a first state, or a new key. */
  predicate Provokes(g: Local, s: State) {
    s.id in g.vertices && g.vertices[s.id].state.Some? ==> g.vertices[s.id].state.value.key != s.key
  }

  /** The local vertex has a state with the node's own key. */
  predicate LocalReady(g: Local) {
    g.self in g.vertices && g.vertices[g.self].state.Some? && g.vertices[g.self].state.value.key == g.key
  }

  function Announcement(g: Local, neighbors: set<Id>): State {
    State(g.self, g.next, g.key, neighbors)
  }

  /** The number of an announcement is taken. */
  function Counted(g: Local): Local {
    g.(next := Wrap(g.next + 1))
  }

  /** An unknown vertex is put in, with a state and without edges. */
  function Entered(g: Local, s: State): Local {
    g.(vertices := g.vertices[s.id := Vertex(Some(s), {})])
  }

  function Announce(route: Router, g: Local, neighbors: set<Id>): (r: Local)
    requires LocalReady(g)
    ensures g.vertices.Keys <= r.vertices.Keys
  {
    var s := Announcement(g, neighbors);
    if Stale(Counted(g), s) then Counted(g) else Store(route, Counted(g), s)
  }

  /**
   States that can come in: nobody else can sign for the local identifier, so a state for
   it carries the local key.
   */
  predicate Receivable(g: Local, s: State) {
    && (s.id == g.self ==> s.key == g.key)
    && (LocalReady(g) || (g.vertices == map[] && s.id == g.self))
  }

  function Update(route: Router, g: Local, s: State, neighbors: set<Id>): Local
    requires Receivable(g, s)
  {
    if Stale(g, s) then g
    else if s.id in g.vertices then
      Store(route, if Provokes(g, s) then Announce(route, g, neighbors) else g, s)
    else
      var announced := Announce(route, Entered(g, s), neighbors);
      var stored := announced.vertices[s.id].state;
      if stored.None? then announced else SetEdges(route, announced, s.id, stored.value.neighbors)
  }

  /** A state received, or a change of neighbours; `neighbors` is what the node has at that moment. */
  datatype Event =
    | Insert(state: State, neighbors: set<Id>)
    | NeighborChange(neighbors: set<Id>)

  function React(route: Router, g: Local, e: Event): Local
    requires if e.Insert? then Receivable(g, e.state) else LocalReady(g)
  {
    match e
    case Insert(s, neighbors) => Update(route, g, s, neighbors)
    case NeighborChange(neighbors) =>
      if g.vertices[g.self].edges == neighbors then g
      else Announce(route, SetEdges(route, g, g.self, neighbors), neighbors)
  }

  /** What a step sends to every channel: at most one announcement. */
  function Emits(g: Local, e: Event): Option<State> {
    match e
    case Insert(s, neighbors) =>
      if !Stale(g, s) && Provokes(g, s) then Some(Announcement(g, neighbors)) else None
    case NeighborChange(neighbors) =>
      if g.self in g.vertices && g.vertices[g.self].edges != neighbors then Some(Announcement(g, neighbors)) else None
  }

  // ----- the exception of an announcement that does not fit -----

  /** The step announces the node, and the announcement exceeds what a message can carry. */
  predicate Throws(g: Local, e: Event) {
    Emits(g, e).Some? && |e.neighbors| > MAX_NEIGHBORS
  }

  /**
   What the exception leaves: the number is taken, and of the step only what came before the
   announcement is done.
   */
  function Broken(route: Router, g: Local, e: Event): Local
    requires e.NeighborChange? ==> LocalReady(g)
  {
    match e
    case Insert(s, _) => Counted(if s.id in g.vertices then g else Entered(g, s))
    case NeighborChange(neighbors) => Counted(SetEdges(route, g, g.self, neighbors))
  }

  /** A step as it really ends: done, with at most one announcement sent, or broken off. */
  datatype Outcome = Outcome(local: Local, sent: Option<State>, thrown: bool)

  function Attempt(route: Router, g: Local, e: Event): Outcome
    requires if e.Insert? then Receivable(g, e.state) else LocalReady(g)
  {
    if Throws(g, e) then Outcome(Broken(route, g, e), None, true)
    else Outcome(React(route, g, e), Emits(g, e), false)
  }

  function Blank(self: Id, key: Key): Local {
    Local(self, key, 0, map[], map[])
  }

  /** The state the node starts from: numbered one below its first announcement, never sent. */
  function Seed(self: Id, key: Key): State {
    State(self, Wrap(-1), key, {})
  }

  /** With more neighbours than fit, the start itself would throw and there would be no node. */
  function Boot(route: Router, self: Id, key: Key, neighbors: set<Id>): Local
    requires |neighbors| <= MAX_NEIGHBORS
  {
    Update(route, Blank(self, key), Seed(self, key), neighbors)
  }

  // ----- what every reachable state looks like -----

  ghost predicate VertexShape(id: Id, v: Vertex) {
    match v.state
    case None => v.edges == {}
    case Some(s) => s.id == id && v.edges == s.neighbors
  }

  ghost predicate Closed(g: Local) {
    forall id :: id in g.vertices ==> g.vertices[id].edges <= g.vertices.Keys
  }

  /** The local vertex stores the node's last announcement, or the seed before the first. */
  ghost predicate OwnState(g: Local) {
    LocalReady(g) && g.vertices[g.self].state.value.sequence == Wrap(g.next - 1)
  }

  ghost predicate Shape(g: Local) {
    && OwnState(g)
    && Closed(g)
    && forall id :: id in g.vertices ==> VertexShape(id, g.vertices[id])
  }

  /** For the local identifier, only echoes come in: earlier announcements, not too old to compare. */
  predicate OwnAreEchoes(g: Local, e: Event) {
    e.Insert? && e.state.id == g.self ==>
      e.state.key == g.key && CompareSequence(e.state.sequence, Wrap(g.next - 1)) <= 0
  }

  /** A step that ends without an exception. */
  predicate Possible(g: Local, e: Event) {
    OwnAreEchoes(g, e) && !Throws(g, e)
  }

  /** A run without exceptions.  How ties between next hops are broken may change from step to step. */
  ghost predicate Reaches(routes: seq<Router>, g: Local, events: seq<Event>, final: Local)
    decreases events
  {
    if events == [] then g == final
    else
      && routes != []
      && Possible(g, events[0])
      && LocalReady(g)
      && Reaches(routes[1..], React(routes[0], g, events[0]), events[1..], final)
  }

  /** A run in which steps may end with exceptions, and only the local identifier is protected. */
  ghost predicate Tries(routes: seq<Router>, g: Local, events: seq<Event>, final: Local)
    decreases events
  {
    if events == [] then g == final
    else
      && routes != [] && LocalReady(g)
      && (events[0].Insert? ==> Receivable(g, events[0].state))
      && Tries(routes[1..], Attempt(routes[0], g, events[0]).local, events[1..], final)
  }

  lemma NextIsNewer(n: uint32)
    ensures CompareSequence(n, Wrap(n - 1)) > 0
    ensures Wrap(Wrap(n + 1) - 1) == n
  {
    CompareExact(n, n - 1);
    assert Wrap(n) == n;
  }

  lemma SetEdgesResult(route: Router, g: Local, id: Id, neighbors: set<Id>)
    requires id in g.vertices && Closed(g)
    ensures SetEdges(route, g, id, neighbors).vertices
            == WithPlaceholders(g.vertices, neighbors)[id := g.vertices[id].(edges := neighbors)]
  {
  }

  lemma StoreResult(route: Router, g: Local, s: State)
    requires s.id in g.vertices && Closed(g)
    ensures Store(route, g, s).vertices
            == WithPlaceholders(g.vertices, s.neighbors)[s.id := Vertex(Some(s), s.neighbors)]
  {
    var g1 := g.(vertices := g.vertices[s.id := g.vertices[s.id].(state := Some(s))]);
    SetEdgesResult(route, g1, s.id, s.neighbors);
    assert WithPlaceholders(g1.vertices, s.neighbors)[s.id := Vertex(Some(s), s.neighbors)]
        == WithPlaceholders(g.vertices, s.neighbors)[s.id := Vertex(Some(s), s.neighbors)];
  }

  /** What an announcement leaves behind. */
  function Announced(g: Local, neighbors: set<Id>): map<Id, Vertex> {
    WithPlaceholders(g.vertices, neighbors)[g.self := Vertex(Some(Announcement(g, neighbors)), neighbors)]
  }

  /** An announcement always replaces the own state before it. */
  lemma AnnounceResult(route: Router, g: Local, neighbors: set<Id>)
    requires OwnState(g) && Closed(g)
    ensures var r := Announce(route, g, neighbors);
            && r.vertices == Announced(g, neighbors)
            && r.next == Wrap(g.next + 1) && r.self == g.self && r.key == g.key
            && OwnState(r) && Closed(r)
  {
    NextIsNewer(g.next);
    StoreResult(route, g.(next := Wrap(g.next + 1)), Announcement(g, neighbors));
  }

  /**
   What an accepted state of another node leaves behind: that state, its neighbours as its
   edges, the local announcement if the state provoked one, and placeholders.
   */
  function Merged(g: Local, s: State, neighbors: set<Id>): map<Id, Vertex> {
    var before := if Provokes(g, s) then Announced(g, neighbors) else g.vertices;
    WithPlaceholders(before, s.neighbors)[s.id := Vertex(Some(s), s.neighbors)]
  }

  lemma InsertKnown(route: Router, g: Local, s: State, neighbors: set<Id>)
    requires OwnState(g) && Closed(g) && s.id != g.self && !Stale(g, s) && s.id in g.vertices
    ensures Update(route, g, s, neighbors).vertices == Merged(g, s, neighbors)
  {
    if Provokes(g, s) {
      AnnounceResult(route, g, neighbors);
      StoreResult(route, Announce(route, g, neighbors), s);
    } else {
      StoreResult(route, g, s);
    }
  }

  lemma InsertUnknown(route: Router, g: Local, s: State, neighbors: set<Id>)
    requires OwnState(g) && Closed(g) && s.id != g.self && s.id !in g.vertices
    ensures Update(route, g, s, neighbors).vertices == Merged(g, s, neighbors)
  {
    var known := g.(vertices := g.vertices[s.id := Vertex(Some(s), {})]);
    AnnounceResult(route, known, neighbors);
    var announced := Announce(route, known, neighbors);
    assert announced.vertices[s.id] == Vertex(Some(s), {});
    SetEdgesResult(route, announced, s.id, s.neighbors);
    PlaceholderForKnown(g, s, neighbors);
  }

  /** It makes no difference whether the sender of `s` is entered before or after the announcement. */
  lemma PlaceholderForKnown(g: Local, s: State, neighbors: set<Id>)
    requires s.id != g.self && s.id !in g.vertices
    ensures WithPlaceholders(Announced(g.(vertices := g.vertices[s.id := Vertex(Some(s), {})]), neighbors), s.neighbors)
              [s.id := Vertex(Some(s), s.neighbors)]
            == Merged(g, s, neighbors)
  {
  }

  lemma InsertResult(route: Router, g: Local, s: State, neighbors: set<Id>)
    requires OwnState(g) && Closed(g) && s.id != g.self && !Stale(g, s)
    ensures Update(route, g, s, neighbors).vertices == Merged(g, s, neighbors)
  {
    if s.id in g.vertices {
      InsertKnown(route, g, s, neighbors);
    } else {
      InsertUnknown(route, g, s, neighbors);
    }
  }

  lemma UpdateKeepsSelf(route: Router, g: Local, s: State, neighbors: set<Id>)
    requires Receivable(g, s)
    ensures var r := Update(route, g, s, neighbors); r.self == g.self && r.key == g.key
    ensures LocalReady(g) ==>
              Update(route, g, s, neighbors).next == if !Stale(g, s) && Provokes(g, s) then Wrap(g.next + 1) else g.next
  {
  }

  lemma BootShape(route: Router, self: Id, key: Key, neighbors: set<Id>)
    requires |neighbors| <= MAX_NEIGHBORS
    ensures var g := Boot(route, self, key, neighbors);
            && Shape(g) && g.self == self && g.key == key && g.next == 1
            && g.vertices[self].state == Some(State(self, 0, key, neighbors))
  {
    var known := Blank(self, key).(vertices := map[self := Vertex(Some(Seed(self, key)), {})]);
    AnnounceResult(route, known, neighbors);
  }

  lemma MergedShape(g: Local, s: State, neighbors: set<Id>, r: Local)
    requires Shape(g) && s.id != g.self && r.vertices == Merged(g, s, neighbors)
    requires r.self == g.self && r.key == g.key && r.next == if Provokes(g, s) then Wrap(g.next + 1) else g.next
    ensures Shape(r)
  {
    NextIsNewer(g.next);
  }

  /** Every operation that ends without an exception keeps the shape, whatever comes in. */
  lemma ReactShape(route: Router, g: Local, e: Event)
    requires Shape(g) && OwnAreEchoes(g, e)
    ensures var r := React(route, g, e); Shape(r) && r.self == g.self && r.key == g.key
  {
    match e {
      case Insert(s, neighbors) =>
        if !Stale(g, s) {
          InsertResult(route, g, s, neighbors);
          UpdateKeepsSelf(route, g, s, neighbors);
          MergedShape(g, s, neighbors, Update(route, g, s, neighbors));
        }
      case NeighborChange(neighbors) =>
        var g1 := SetEdges(route, g, g.self, neighbors);
        AnnounceResult(route, g1, neighbors);
    }
  }

  lemma {:induction false} RunShape(routes: seq<Router>, g: Local, events: seq<Event>, final: Local)
    requires Shape(g) && Reaches(routes, g, events, final)
    ensures Shape(final) && final.self == g.self && final.key == g.key
    decreases events
  {
    if events != [] {
      ReactShape(routes[0], g, events[0]);
      RunShape(routes[1..], React(routes[0], g, events[0]), events[1..], final);
    }
  }

  /** What an exception leaves has lost the shape: the number taken was never announced. */
  lemma BrokenLosesShape(route: Router, g: Local, e: Event)
    requires Shape(g) && OwnAreEchoes(g, e) && Throws(g, e)
    ensures !OwnState(Broken(route, g, e))
  {
    NextIsNewer(g.next);
    assert Wrap(g.next - 1) != g.next;
    var r := Broken(route, g, e);
    assert r.next == Wrap(g.next + 1) && r.self == g.self;
    assert r.vertices[r.self].state == g.vertices[g.self].state;
  }

  /** An unknown sender is left with its state but without the edges the state lists. */
  lemma BrokenLeavesHalf(route: Router, g: Local, e: Event)
    requires LocalReady(g) && Throws(g, e) && e.Insert? && e.state.id !in g.vertices
    ensures var r := Broken(route, g, e);
            && e.state.id in r.vertices && r.vertices[e.state.id].state == Some(e.state)
            && (VertexShape(e.state.id, r.vertices[e.state.id]) <==> e.state.neighbors == {})
  {
  }

  /**
   What an exception leaves, vertex by vertex: the number is taken and nothing is sent; a state
   that came in is kept only if its sender was unknown, without edges; changed neighbours are
   the node's edges, though it still stores its last announcement.
   */
  lemma BrokenExactly(route: Router, g: Local, e: Event, id: Id)
    requires LocalReady(g) && Throws(g, e) && (e.Insert? ==> Receivable(g, e.state))
    ensures var end := Attempt(route, g, e);
            var r := end.local;
            && end.thrown && end.sent == None
            && r.self == g.self && r.key == g.key && r.next == Wrap(g.next + 1)
            && match e
               case Insert(s, _) =>
                 && (id in r.vertices <==> id in g.vertices || id == s.id)
                 && (id in g.vertices ==> r.vertices[id] == g.vertices[id])
                 && (s.id !in g.vertices ==> r.vertices[s.id] == Vertex(Some(s), {}))
               case NeighborChange(neighbors) =>
                 && (id in r.vertices <==> id in g.vertices || id in neighbors)
                 && r.vertices[g.self] == Vertex(g.vertices[g.self].state, neighbors)
                 && (id in g.vertices && id != g.self ==> r.vertices[id] == g.vertices[id])
                 && (id in neighbors && id !in g.vertices ==> r.vertices[id] == Vertex(None, {}))
  {
  }

  /** A step keeps the shape if and only if it does not announce more neighbours than fit. */
  lemma ShapeKeptExactly(route: Router, g: Local, e: Event)
    requires Shape(g) && OwnAreEchoes(g, e)
    ensures Shape(Attempt(route, g, e).local) <==> !Throws(g, e)
  {
    if Throws(g, e) {
      BrokenLosesShape(route, g, e);
    } else {
      ReactShape(route, g, e);
    }
  }

  /**
   What the recursion of announcing and inserting rests on holds in every run, whatever
   exceptions it meets: the local vertex has a state with the node's own key.
   */
  lemma {:induction false} TriesStayReady(routes: seq<Router>, g: Local, events: seq<Event>, final: Local)
    requires LocalReady(g) && Closed(g) && Tries(routes, g, events, final)
    ensures LocalReady(final) && Closed(final) && final.self == g.self && final.key == g.key
    decreases events
  {
    if events != [] {
      AttemptStaysReady(routes[0], g, events[0]);
      TriesStayReady(routes[1..], Attempt(routes[0], g, events[0]).local, events[1..], final);
    }
  }

  lemma SetEdgesStaysReady(route: Router, g: Local, id: Id, neighbors: set<Id>)
    requires LocalReady(g) && Closed(g) && id in g.vertices
    ensures var r := SetEdges(route, g, id, neighbors);
            LocalReady(r) && Closed(r) && r.self == g.self && r.key == g.key && id in r.vertices
  {
  }

  lemma StoreStaysReady(route: Router, g: Local, s: State)
    requires LocalReady(g) && Closed(g) && s.id in g.vertices && (s.id == g.self ==> s.key == g.key)
    ensures var r := Store(route, g, s);
            LocalReady(r) && Closed(r) && r.self == g.self && r.key == g.key && s.id in r.vertices
  {
    var g1 := g.(vertices := g.vertices[s.id := g.vertices[s.id].(state := Some(s))]);
    SetEdgesStaysReady(route, g1, s.id, s.neighbors);
  }

  lemma AnnounceStaysReady(route: Router, g: Local, neighbors: set<Id>)
    requires LocalReady(g) && Closed(g)
    ensures var r := Announce(route, g, neighbors);
            LocalReady(r) && Closed(r) && r.self == g.self && r.key == g.key
  {
    StoreStaysReady(route, g.(next := Wrap(g.next + 1)), Announcement(g, neighbors));
  }

  lemma UpdateStaysReady(route: Router, g: Local, s: State, neighbors: set<Id>)
    requires LocalReady(g) && Closed(g) && Receivable(g, s)
    ensures var r := Update(route, g, s, neighbors);
            LocalReady(r) && Closed(r) && r.self == g.self && r.key == g.key
  {
    if Stale(g, s) {
    } else if s.id in g.vertices {
      AnnounceStaysReady(route, g, neighbors);
      StoreStaysReady(route, if Provokes(g, s) then Announce(route, g, neighbors) else g, s);
    } else {
      var known := g.(vertices := g.vertices[s.id := Vertex(Some(s), {})]);
      AnnounceStaysReady(route, known, neighbors);
      var announced := Announce(route, known, neighbors);
      if announced.vertices[s.id].state.Some? {
        SetEdgesStaysReady(route, announced, s.id, announced.vertices[s.id].state.value.neighbors);
      }
    }
  }

  lemma AttemptStaysReady(route: Router, g: Local, e: Event)
    requires LocalReady(g) && Closed(g) && (e.Insert? ==> Receivable(g, e.state))
    ensures var r := Attempt(route, g, e).local;
            LocalReady(r) && Closed(r) && r.self == g.self && r.key == g.key
  {
    match e {
      case Insert(s, neighbors) =>
        UpdateStaysReady(route, g, s, neighbors);
      case NeighborChange(neighbors) =>
        SetEdgesStaysReady(route, g, g.self, neighbors);
        SetEdgesStaysReady(route, g.(next := Wrap(g.next + 1)), g.self, neighbors);
        AnnounceStaysReady(route, SetEdges(route, g, g.self, neighbors), neighbors);
    }
  }

  // ----- the smallest crowd that does not fit -----

  function Crowd(n: nat): set<Id> {
    if n == 0 then {} else Crowd(n - 1) + {n - 1}
  }

  lemma {:induction false} CrowdSize(n: nat)
    ensures |Crowd(n)| == n && forall x :: x in Crowd(n) ==> x < n
  {
    if n > 0 { CrowdSize(n - 1); }
  }

  /** One neighbour more than the 1983 a state can list: nothing is announced, and the shape is lost. */
  lemma OneTooMany(route: Router, g: Local, x: Id)
    requires Shape(g) && |g.vertices[g.self].edges| == MAX_NEIGHBORS && x !in g.vertices[g.self].edges
    ensures var e := NeighborChange(g.vertices[g.self].edges + {x});
            && OwnAreEchoes(g, e) && Attempt(route, g, e).thrown
            && Attempt(route, g, e).sent == None && !Shape(Attempt(route, g, e).local)
  {
    ShapeKeptExactly(route, g, NeighborChange(g.vertices[g.self].edges + {x}));
  }

  /** A started node can be at that limit. */
  lemma CrowdedNodeThrows(route: Router, key: Key)
    ensures |Crowd(MAX_NEIGHBORS)| == MAX_NEIGHBORS
    ensures var g := Boot(route, 0, key, Crowd(MAX_NEIGHBORS));
            var e := NeighborChange(Crowd(MAX_NEIGHBORS) + {MAX_NEIGHBORS});
            && Shape(g) && OwnAreEchoes(g, e) && Attempt(route, g, e).thrown
            && Attempt(route, g, e).sent == None && !Shape(Attempt(route, g, e).local)
  {
    CrowdSize(MAX_NEIGHBORS);
    BootShape(route, 0, key, Crowd(MAX_NEIGHBORS));
    var g := Boot(route, 0, key, Crowd(MAX_NEIGHBORS));
    assert VertexShape(0, g.vertices[0]);
    hide Boot, Crowd, Attempt, Shape;
    OneTooMany(route, g, MAX_NEIGHBORS);
  }
}
