/**
 The link-state graph as objects updated in place: vertices, the edges between them, the
 announcement counter and the table shared with the routing.  `model` is the value the
 objects stand for; every operation takes it through the function `LinkState` gives for it.
 */
module GraphObjects {
  import opened Common
  import opened Sequence
  import opened LinkState
  import opened Limits
  import opened Labels
  import opened Vertices
  import opened RoutingObjects
  import CachedTable
  import WrittenSearch

  /** Enters a vertex when it is unknown; those entered stay the same objects. */
  method Enter(vs: Pointers, id: Id, ghost vertices: map<Id, Vertex>) returns (vs': Pointers)
    requires Holds(vs, vertices)
    ensures Holds(vs', WithPlaceholders(vertices, {id})) && id in vs'
    ensures forall x :: x in vs ==> x in vs' && vs'[x] == vs[x]
    ensures forall x :: x in vs' && x !in vs ==> fresh(vs'[x])
  {
    vs' := vs;
    if id !in vs {
      var address: nat := *;
      var v := new Vertice(id, address);
      vs' := vs[id := v];
    }
  }

  /** Lets an edge lead to a vertex that is entered. */
  method Link(vs: Pointers, v: Vertice, to: Id, ghost vertices: map<Id, Vertex>)
    requires Holds(vs, vertices) && v.id in vs && vs[v.id] == v && to in vs
    modifies v`edges
    ensures Holds(vs, vertices[v.id := vertices[v.id].(edges := vertices[v.id].edges + {to})])
  {
    v.edges := v.edges[to := vs[to]];
  }

  method Unlink(vs: Pointers, v: Vertice, to: Id, ghost vertices: map<Id, Vertex>)
    requires Holds(vs, vertices) && v.id in vs && vs[v.id] == v
    modifies v`edges
    ensures Holds(vs, vertices[v.id := vertices[v.id].(edges := vertices[v.id].edges - {to})])
  {
    v.edges := v.edges - {to};
  }

  function WithEdges(vertices: map<Id, Vertex>, id: Id, edges: set<Id>): map<Id, Vertex>
    requires id in vertices
  {
    vertices[id := vertices[id].(edges := edges)]
  }

  lemma HoldsMeans(vs: Pointers, vertices: map<Id, Vertex>)
    requires Holds(vs, vertices)
    ensures Named(vs) && vs.Keys == vertices.Keys
    ensures forall id :: id in vs ==> vertices[id] == Vertex(vs[id].state, vs[id].edges.Keys)
    ensures forall id :: id in vertices ==> vertices[id].edges <= vertices.Keys
  {
    forall id | id in vs ensures VertexOf(vs[id]) == vertices[id] && Leads(vs, vs[id]) {
    }
  }

  lemma NamedMeans(vs: Pointers, id: Id)
    requires Named(vs) && id in vs
    ensures vs[id].id == id
  {
  }

  /** Takes the edges in `removed` away, one by one. */
  method UnlinkAll(vs: Pointers, v: Vertice, removed: set<Id>, ghost vertices: map<Id, Vertex>)
    requires Holds(vs, vertices) && v.id in vs && vs[v.id] == v && v.id in vertices
    modifies v`edges
    ensures Holds(vs, WithEdges(vertices, v.id, vertices[v.id].edges - removed))
  {
    hide *;
    WithEdgesMeans(vertices, v.id, vertices[v.id].edges - {});
    var rest := removed;
    ghost var done := {};
    while rest != {}
      invariant done + rest == removed && done !! rest
      invariant Holds(vs, WithEdges(vertices, v.id, vertices[v.id].edges - done))
    {
      var id :| id in rest;
      WithEdgesMeans(vertices, v.id, vertices[v.id].edges - done);
      Unlink(vs, v, id, WithEdges(vertices, v.id, vertices[v.id].edges - done));
      assert vertices[v.id].edges - done - {id} == vertices[v.id].edges - (done + {id});
      WithEdgesTwice(vertices, v.id, vertices[v.id].edges - done, vertices[v.id].edges - (done + {id}));
      rest, done := rest - {id}, done + {id};
    }
    assert done == removed;
  }

  lemma WithEdgesMeans(vertices: map<Id, Vertex>, id: Id, edges: set<Id>)
    requires id in vertices
    ensures var r := WithEdges(vertices, id, edges);
            && id in r && r[id].edges == edges && r.Keys == vertices.Keys
            && (edges == vertices[id].edges ==> r == vertices)
  {
  }

  lemma WithEdgesTwice(vertices: map<Id, Vertex>, id: Id, edges: set<Id>, more: set<Id>)
    requires id in vertices
    ensures var r := WithEdges(vertices, id, edges);
            && id in r && r[id := r[id].(edges := more)] == WithEdges(vertices, id, more)
  {
  }

  /** The vertices after the edges in `added` were added to those of `id`. */
  function Widened(vertices: map<Id, Vertex>, id: Id, added: set<Id>): map<Id, Vertex>
    requires id in vertices
  {
    WithEdges(WithPlaceholders(vertices, added), id, vertices[id].edges + added)
  }

  lemma WidenedMore(vertices: map<Id, Vertex>, id: Id, added: set<Id>, to: Id)
    requires id in vertices
    ensures var r := WithPlaceholders(Widened(vertices, id, added), {to});
            && id in r
            && r[id := r[id].(edges := r[id].edges + {to})] == Widened(vertices, id, added + {to})
    ensures Widened(vertices, id, {}) == vertices
  {
    var r := WithPlaceholders(Widened(vertices, id, added), {to});
    assert r[id].edges + {to} == vertices[id].edges + (added + {to});
    assert vertices[id].edges + {} == vertices[id].edges;
  }

  /** Adds an edge to each vertex in `added`, entering those that are unknown. */
  method LinkAll(vs: Pointers, v: Vertice, added: set<Id>, ghost vertices: map<Id, Vertex>) returns (vs': Pointers)
    requires Holds(vs, vertices) && v.id in vs && vs[v.id] == v && v.id in vertices
    modifies v`edges
    ensures Holds(vs', Widened(vertices, v.id, added))
    ensures forall x :: x in vs ==> x in vs' && vs'[x] == vs[x]
    ensures forall x :: x in vs' && x !in vs ==> fresh(vs'[x])
  {
    hide *;
    vs' := vs;
    var rest := added;
    ghost var done := {};
    WidenedMore(vertices, v.id, {}, 0);
    while rest != {}
      invariant done + rest == added && done !! rest
      invariant Holds(vs', Widened(vertices, v.id, done))
      invariant forall x :: x in vs ==> x in vs' && vs'[x] == vs[x]
      invariant forall x :: x in vs' && x !in vs ==> fresh(vs'[x])
    {
      var id :| id in rest;
      WidenedMore(vertices, v.id, done, id);
      vs' := Enter(vs', id, Widened(vertices, v.id, done));
      Link(vs', v, id, WithPlaceholders(Widened(vertices, v.id, done), {id}));
      rest, done := rest - {id}, done + {id};
    }
    assert done == added;
  }

  /** Taking the lost edges away and adding the new ones gives the vertex its new neighbours. */
  lemma RewiredIsSet(g: Local, id: Id, neighbors: set<Id>, kept: map<Id, Vertex>)
    requires id in g.vertices && g.vertices[id].edges != neighbors
    requires forall x :: x in g.vertices ==> g.vertices[x].edges <= g.vertices.Keys
    requires kept == WithEdges(g.vertices, id, g.vertices[id].edges - (g.vertices[id].edges - neighbors))
    ensures id in kept
    ensures var after := Widened(kept, id, neighbors - g.vertices[id].edges);
            && SetEdges(CachedTable.Direct, g, id, neighbors)
               == g.(vertices := after, table := CachedTable.Direct(g.self, EdgesOf(after)))
            && (g.self in g.vertices ==> Labels.Graph(g.self, EdgesOf(after)))
  {
    var current := g.vertices[id].edges;
    assert (current - (current - neighbors)) + (neighbors - current) == neighbors;
    var after := Widened(kept, id, neighbors - current);
    assert after == WithPlaceholders(g.vertices, neighbors)[id := g.vertices[id].(edges := neighbors)];
  }

  lemma SameEdgesSet(g: Local, id: Id)
    requires id in g.vertices
    ensures SetEdges(CachedTable.Direct, g, id, g.vertices[id].edges) == g
  {
  }

  /** Replaces the state a vertex stores. */
  method SetState(vs: Pointers, v: Vertice, state: State, ghost vertices: map<Id, Vertex>)
    requires Holds(vs, vertices) && v.id in vs && vs[v.id] == v && v.id in vertices
    modifies v`state
    ensures Holds(vs, vertices[v.id := vertices[v.id].(state := Some(state))])
  {
    v.state := Some(state);
  }

  /** Enters a vertex that was unknown, with its state. */
  method EnterWith(vs: Pointers, state: State, ghost vertices: map<Id, Vertex>) returns (vs': Pointers)
    requires Holds(vs, vertices) && state.id !in vs
    ensures Holds(vs', vertices[state.id := Vertex(Some(state), {})]) && state.id in vs'
    ensures forall x :: x in vs ==> x in vs' && vs'[x] == vs[x]
    ensures forall x :: x in vs' && x !in vs ==> fresh(vs'[x])
  {
    var address: nat := *;
    var v := new Vertice(state.id, address);
    v.state := Some(state);
    vs' := vs[state.id := v];
  }

  function ToMessage(s: State): Message {
    Message(StateKind, Some(s.id), None, s.sequence, Claim(s.key, s.neighbors))
  }

  function FromMessage(m: Message): Option<State> {
    if m.kind.StateKind? && m.source.Some? && m.body.Claim? then
      Some(State(m.source.value, m.sequence, m.body.key, m.body.neighbors))
    else None
  }

  /** An announcement is a state message of its node to everyone, with its key and all its neighbours. */
  lemma MessageOf(s: State)
    ensures ToMessage(s).kind == StateKind && ToMessage(s).source == Some(s.id) && ToMessage(s).destination == None
    ensures ToMessage(s).sequence == s.sequence && ToMessage(s).body == Claim(s.key, s.neighbors)
    ensures FromMessage(ToMessage(s)) == Some(s)
  {
  }

  /** A message is read as a state exactly when it is one of its source, and as just the state it claims. */
  lemma FromMessageExactly(m: Message, s: State)
    ensures FromMessage(m) == Some(s)
            <==> m.kind == StateKind && m.source == Some(s.id) && m.sequence == s.sequence
                 && m.body == Claim(s.key, s.neighbors)
    ensures FromMessage(m) == None <==> m.kind != StateKind || m.source == None || !m.body.Claim?
  {
  }

  /** What the channels got, when `news` was announced or nothing was. */
  ghost predicate Told(routing: Routing, before: Outbox, news: Option<State>)
    reads routing
  {
    match news
    case None => routing.outbox == before
    case Some(s) => HandedOut(before, routing.outbox, Receivers(routing.channels, routing.open, None), ToMessage(s))
  }

  function Listed(news: Option<State>): seq<State> {
    if news.Some? then [news.value] else []
  }

  lemma ToldMeans(routing: Routing, before: Outbox, news: Option<State>)
    ensures Told(routing, before, news) <==>
              if news.None? then routing.outbox == before
              else HandedOut(before, routing.outbox, Receivers(routing.channels, routing.open, None),
                             ToMessage(news.value))
    ensures Listed(None) == [] && (news.Some? ==> Listed(news) == [news.value])
  {
  }

  /** More neighbours than a state can list. */
  predicate Crowded(neighbors: set<Id>) {
    |neighbors| > MAX_NEIGHBORS
  }

  lemma CrowdedMeans(neighbors: set<Id>)
    ensures Crowded(neighbors) <==> |neighbors| > MAX_NEIGHBORS
  {
  }

  /** A step that ended without an exception, having announced `sent`. */
  function Done(g: Local, sent: Option<State>): Outcome {
    Outcome(g, sent, false)
  }

  /** A step broken off by an exception. */
  function BrokenOff(g: Local): Outcome {
    Outcome(g, None, true)
  }

  lemma OutcomeMeans(g: Local, sent: Option<State>)
    ensures Done(g, sent) == Outcome(g, sent, false) && BrokenOff(g) == Outcome(g, None, true)
  {
  }

  /** What the code attempts when a state comes in. */
  function Reception(g: Local, s: State, neighbors: set<Id>): Outcome
    requires Receivable(g, s)
  {
    Attempt(CachedTable.Direct, g, Insert(s, neighbors))
  }

  /** An announcement is taken in like any state, except that it never provokes another. */
  lemma AnnounceIsReception(g: Local, neighbors: set<Id>)
    requires LocalReady(g)
    ensures var s := State(g.self, g.next, g.key, neighbors);
            && s == Announcement(g, neighbors) && Counted(g) == g.(next := Wrap(g.next + 1))
            && Receivable(Counted(g), s) && LocalReady(Counted(g))
            && Reception(Counted(g), s, neighbors) == Done(Announce(CachedTable.Direct, g, neighbors), None)
  {
  }

  /** What receiving a state asks of a node that knows its vertex, step by step. */
  lemma ReceiveKnown(g: Local, s: State, neighbors: set<Id>)
    requires Receivable(g, s) && s.id in g.vertices
    ensures LocalReady(g)
    ensures Stale(g, s) <==>
              (g.vertices[s.id].state.Some? && CompareSequence(s.sequence, g.vertices[s.id].state.value.sequence) <= 0)
    ensures Provokes(g, s) <==> (g.vertices[s.id].state.None? || g.vertices[s.id].state.value.key != s.key)
    ensures s.id == g.self ==> !Provokes(g, s)
    ensures Stale(g, s) ==> Reception(g, s, neighbors) == Done(g, None)
    ensures !Stale(g, s) && !Provokes(g, s) ==>
              Reception(g, s, neighbors) == Done(Store(CachedTable.Direct, g, s), None)
    ensures !Stale(g, s) && Provokes(g, s) && Crowded(neighbors) ==>
              Reception(g, s, neighbors) == BrokenOff(Counted(g))
    ensures !Stale(g, s) && Provokes(g, s) && !Crowded(neighbors) ==>
              var g1 := Announce(CachedTable.Direct, g, neighbors);
              && s.id in g1.vertices && g1.self in g1.vertices
              && Reception(g, s, neighbors)
                 == Done(Store(CachedTable.Direct, g1, s), Some(Announcement(g, neighbors)))
  {
  }

  /** The edges of a vertex are brought in line with the state it now holds. */
  function Linked(g: Local, id: Id): Local {
    if id in g.vertices && g.vertices[id].state.Some? && g.self in g.vertices then
      SetEdges(CachedTable.Direct, g, id, g.vertices[id].state.value.neighbors)
    else g
  }

  lemma LinkedMeans(g: Local, id: Id)
    requires id in g.vertices && g.self in g.vertices
    ensures g.vertices[id].state.None? ==> Linked(g, id) == g
    ensures g.vertices[id].state.Some? ==>
              Linked(g, id) == SetEdges(CachedTable.Direct, g, id, g.vertices[id].state.value.neighbors)
  {
  }

  /** What it asks about a vertex the node does not know yet. */
  lemma ReceiveUnknown(g: Local, s: State, neighbors: set<Id>)
    requires Receivable(g, s) && s.id !in g.vertices
    ensures !Stale(g, s) && LocalReady(Entered(g, s)) && !(s.id == g.self && LocalReady(g))
    ensures Crowded(neighbors) ==> Reception(g, s, neighbors) == BrokenOff(Counted(Entered(g, s)))
    ensures !Crowded(neighbors) ==>
              Reception(g, s, neighbors)
              == Done(Linked(Announce(CachedTable.Direct, Entered(g, s), neighbors), s.id),
                      Some(Announcement(Entered(g, s), neighbors)))
  {
  }

  /** What a change of neighbours asks. */
  lemma ChangeMeans(g: Local, neighbors: set<Id>)
    requires LocalReady(g)
    ensures g.self in g.vertices
    ensures var g1 := SetEdges(CachedTable.Direct, g, g.self, neighbors);
            && LocalReady(g1) && Announcement(g1, neighbors) == Announcement(g, neighbors)
            && Attempt(CachedTable.Direct, g, NeighborChange(neighbors))
               == if g.vertices[g.self].edges == neighbors then Done(g1, None)
                  else if Crowded(neighbors) then BrokenOff(Counted(g1))
                  else Done(Announce(CachedTable.Direct, g1, neighbors), Some(Announcement(g, neighbors)))
  {
  }

  /** Each channel's stream grows by the announcement, if one was made, and then by the relayed message. */
  ghost predicate Relayed(routing: Routing, before: Outbox, news: Option<State>, relay: bool,
                          message: Message, from: Channel)
    reads routing
  {
    forall c :: Stream(routing.outbox, c)
      == Stream(before, c)
         + (if news.Some? && c in Receivers(routing.channels, routing.open, None) then [ToMessage(news.value)] else [])
         + (if relay && c in Receivers(routing.channels, routing.open, Some(from)) then [message] else [])
  }

  lemma ToldThenRelayed(routing: Routing, before: Outbox, mid: Outbox, news: Option<State>, relay: bool,
                        message: Message, from: Channel)
    requires news.None? ==> mid == before
    requires news.Some? ==> HandedOut(before, mid, Receivers(routing.channels, routing.open, None),
                                      ToMessage(news.value))
    requires !relay ==> routing.outbox == mid
    requires relay ==> HandedOut(mid, routing.outbox, Receivers(routing.channels, routing.open, Some(from)), message)
    ensures Relayed(routing, before, news, relay, message, from)
  {
    forall c
      ensures Stream(routing.outbox, c)
        == Stream(before, c)
           + (if news.Some? && c in Receivers(routing.channels, routing.open, None)
                 then [ToMessage(news.value)] else [])
           + (if relay && c in Receivers(routing.channels, routing.open, Some(from)) then [message] else [])
    {
    }
  }

  lemma BootMeans(self: Id, key: Key, neighbors: set<Id>)
    requires |neighbors| <= MAX_NEIGHBORS
    ensures var blank, seed := Blank(self, key), State(self, Wrap(0 - 1), key, {});
            && Receivable(blank, seed) && blank == Local(self, key, 0, map[], map[]) && seed == Seed(self, key)
            && Reception(blank, seed, neighbors)
               == Done(Boot(CachedTable.Direct, self, key, neighbors), Some(Announcement(blank, neighbors)))
    ensures Holds(map[], map[])
  {
  }

  lemma AnnounceKeeps(g: Local, neighbors: set<Id>)
    requires LocalReady(g)
    ensures g.self in Announce(CachedTable.Direct, g, neighbors).vertices
    ensures forall x :: x in g.vertices ==> x in Announce(CachedTable.Direct, g, neighbors).vertices
    ensures Announce(CachedTable.Direct, g, neighbors).self == g.self
  {
  }

  lemma StoreIsSetEdges(g: Local, s: State)
    requires s.id in g.vertices
    ensures var g1 := g.(vertices := g.vertices[s.id := g.vertices[s.id].(state := Some(s))]);
            Store(CachedTable.Direct, g, s) == SetEdges(CachedTable.Direct, g1, s.id, s.neighbors)
  {
  }

  class Graph {
    const self: Id
    const key: Key
    const routing: Routing
    var vertices: Pointers
    var stateSequence: uint32
    var table: Table
    /** What the objects stand for. */
    ghost var model: Local
    /** The states announced so far. */
    ghost var announced: seq<State>

    ghost predicate Valid()
      reads this, routing, vertices.Values
    {
      && Holds(vertices, model.vertices)
      && model.self == self && model.key == key && model.next == stateSequence
      && model.table == table == routing.table
    }

    lemma ValidMeans()
      ensures Valid() <==>
                && Holds(vertices, model.vertices)
                && model.self == self && model.key == key && model.next == stateSequence
                && model.table == table == routing.table
    {
    }

    /** Vertices stay entered as the same objects. */
    ghost predicate Grown(before: Pointers)
      reads this`vertices
    {
      forall id :: id in before ==> id in vertices && vertices[id] == before[id]
    }

    lemma GrownMeans(before: Pointers)
      ensures Grown(before) <==> forall id :: id in before ==> id in vertices && vertices[id] == before[id]
    {
    }

    /** A started node announces itself once, over its seed.  More neighbours than fit would throw here. */
    constructor (self: Id, key: Key, routing: Routing)
      requires routing.table == map[] && |routing.neighbors.Keys| <= MAX_NEIGHBORS
      modifies routing`table, routing`outbox
      ensures Valid() && this.self == self && this.key == key && this.routing == routing
      ensures model == Boot(CachedTable.Direct, self, key, routing.neighbors.Keys)
      ensures announced == [Announcement(Blank(self, key), routing.neighbors.Keys)]
      ensures Told(routing, old(routing.outbox), Some(Announcement(Blank(self, key), routing.neighbors.Keys)))
    {
      this.self, this.key, this.routing := self, key, routing;
      vertices, stateSequence, table := map[], 0, map[];
      model, announced := Blank(self, key), [];
      new;
      Start();
    }

    /** Inserts the seed, numbered one below the first announcement. */
    method Start()
      requires vertices == map[] && stateSequence == 0 && table == map[] == routing.table
      requires |routing.neighbors.Keys| <= MAX_NEIGHBORS
      requires model == Blank(self, key) && announced == []
      modifies this`vertices, this`table, this`model, this`stateSequence, this`announced
      modifies routing`table, routing`outbox
      ensures Valid() && model == Boot(CachedTable.Direct, self, key, routing.neighbors.Keys)
      ensures announced == [Announcement(Blank(self, key), routing.neighbors.Keys)]
      ensures Told(routing, old(routing.outbox), Some(Announcement(Blank(self, key), routing.neighbors.Keys)))
      ensures forall x :: x in vertices ==> fresh(vertices[x])
      decreases 3, 0
    {
      hide *;
      BootMeans(self, key, routing.neighbors.Keys);
      ValidMeans();
      ToldMeans(routing, routing.outbox, Some(Announcement(Blank(self, key), routing.neighbors.Keys)));
      OutcomeMeans(Boot(CachedTable.Direct, self, key, routing.neighbors.Keys),
                   Some(Announcement(Blank(self, key), routing.neighbors.Keys)));
      var accepted := UpdateVertice(State(self, Wrap(stateSequence - 1), key, {}));
    }

    /** Takes over a changed graph and computes its table, for itself and for the routing. */
    method Adopt(vs: Pointers, ghost after: map<Id, Vertex>)
      requires Holds(vs, after) && self in vs && Labels.Graph(self, EdgesOf(after))
      requires model.self == self && model.key == key && model.next == stateSequence
      modifies this`vertices, this`table, this`model, routing`table
      modifies vs.Values`nextHop, vs.Values`distance, vs.Values`visited
      ensures Valid() && vertices == vs
      ensures model == old(model).(vertices := after, table := CachedTable.Direct(self, EdgesOf(after)))
    {
      hide *;
      HoldsMeans(vs, after);
      NamedMeans(vs, self);
      ghost var queue;
      var t;
      t, queue := WrittenSearch.ComputeRoutingTable(vs, vs[self], after);
      vertices, table := vs, t;
      routing.SetTable(t);
      model := model.(vertices := after, table := t);
      ValidMeans();
    }

    method UpdateEdges(id: Id, neighbors: set<Id>) returns (changed: bool)
      requires Valid() && id in model.vertices && self in model.vertices
      modifies this`vertices, this`table, this`model, routing`table, vertices.Values
      ensures Valid() && model == SetEdges(CachedTable.Direct, old(model), id, neighbors)
      ensures changed <==> old(model).vertices[id].edges != neighbors
      ensures Grown(old(vertices)) && forall x :: x in vertices && x !in old(vertices) ==> fresh(vertices[x])
    {
      hide *;
      ValidMeans();
      HoldsMeans(vertices, model.vertices);
      NamedMeans(vertices, id);
      GrownMeans(vertices);
      SameEdgesSet(model, id);
      var v := vertices[id];
      var current := v.edges.Keys;
      var added, removed := neighbors - current, current - neighbors;
      if added == {} && removed == {} {
        assert current == neighbors;
        return false;
      }
      assert current != neighbors;
      ghost var kept := WithEdges(model.vertices, id, current - removed);
      RewiredIsSet(model, id, neighbors, kept);
      UnlinkAll(vertices, v, removed, model.vertices);
      var vs := LinkAll(vertices, v, added, kept);
      HoldsMeans(vs, Widened(kept, id, added));
      Adopt(vs, Widened(kept, id, added));
      GrownMeans(old(vertices));
      changed := true;
    }

    /**
     Announces the node under its next number.  With more neighbours than a state can list
     the number is taken all the same, and the exception comes before anything else is done.
     */
    method BroadcastState() returns (thrown: bool)
      requires Valid() && LocalReady(model)
      modifies this`vertices, this`table, this`model, this`stateSequence, this`announced
      modifies routing`table, routing`outbox, vertices.Values
      ensures Valid() && thrown == Crowded(routing.neighbors.Keys)
      ensures thrown ==> model == Counted(old(model)) && announced == old(announced)
                         && routing.outbox == old(routing.outbox) && vertices == old(vertices)
      ensures !thrown ==>
                && model == Announce(CachedTable.Direct, old(model), routing.neighbors.Keys)
                && announced == old(announced) + [Announcement(old(model), routing.neighbors.Keys)]
                && Told(routing, old(routing.outbox), Some(Announcement(old(model), routing.neighbors.Keys)))
      ensures Grown(old(vertices)) && forall x :: x in vertices && x !in old(vertices) ==> fresh(vertices[x])
      decreases 1, 0
    {
      hide *;
      ValidMeans();
      AnnounceIsReception(model, routing.neighbors.Keys);
      OutcomeMeans(Announce(CachedTable.Direct, model, routing.neighbors.Keys), None);
      CrowdedMeans(routing.neighbors.Keys);
      var localState := State(self, stateSequence, key, routing.neighbors.Keys);
      stateSequence := Wrap(stateSequence + 1);
      model := Counted(model);
      ValidMeans();
      GrownMeans(old(vertices));
      if |localState.neighbors| > MAX_NEIGHBORS { return true; }
      SendAnnouncement(localState);
      thrown := false;
    }

    /** The announcement is taken in and handed to the channels. */
    method SendAnnouncement(localState: State)
      requires Valid() && LocalReady(model) && Receivable(model, localState) && localState.id == self
      requires Reception(model, localState, routing.neighbors.Keys)
               == Done(Reception(model, localState, routing.neighbors.Keys).local, None)
      modifies this`vertices, this`table, this`model, this`stateSequence, this`announced
      modifies routing`table, routing`outbox, vertices.Values
      ensures Valid() && model == Reception(old(model), localState, routing.neighbors.Keys).local
      ensures announced == old(announced) + [localState] && Told(routing, old(routing.outbox), Some(localState))
      ensures Grown(old(vertices)) && forall x :: x in vertices && x !in old(vertices) ==> fresh(vertices[x])
      decreases 0, 2
    {
      hide *;
      ValidMeans();
      OutcomeMeans(Reception(model, localState, routing.neighbors.Keys).local, None);
      ghost var before := routing.outbox;
      var accepted := UpdateVertice(localState);
      ToldMeans(routing, before, None);
      assert announced == old(announced);
      ValidMeans();
      GrownMeans(old(vertices));
      routing.Broadcast(ToMessage(localState), None);
      ToldMeans(routing, before, Some(localState));
      announced := announced + [localState];
      ValidMeans();
      GrownMeans(old(vertices));
    }

    /** Stores a state for a known vertex and takes over its neighbours. */
    method Accept(state: State)
      requires Valid() && state.id in model.vertices && self in model.vertices
      modifies this`vertices, this`table, this`model, routing`table, vertices.Values
      ensures Valid() && model == Store(CachedTable.Direct, old(model), state)
      ensures Grown(old(vertices)) && forall x :: x in vertices && x !in old(vertices) ==> fresh(vertices[x])
    {
      hide *;
      ValidMeans();
      HoldsMeans(vertices, model.vertices);
      NamedMeans(vertices, state.id);
      StoreIsSetEdges(model, state);
      SetState(vertices, vertices[state.id], state, model.vertices);
      model := model.(vertices := model.vertices[state.id := model.vertices[state.id].(state := Some(state))]);
      ValidMeans();
      var changed := UpdateEdges(state.id, state.neighbors);
    }

    /**
     Stores a state if it is news.  A first state or a changed key makes the node announce
     itself first: at most once, because its own announcement is never such news.  An
     announcement that does not fit breaks the step off.
     */
    method UpdateVertice(state: State) returns (accepted: Result<bool>)
      requires Valid() && Receivable(model, state)
      modifies this`vertices, this`table, this`model, this`stateSequence, this`announced
      modifies routing`table, routing`outbox, vertices.Values
      ensures Valid()
      ensures var end := Reception(old(model), state, routing.neighbors.Keys);
              && model == end.local && accepted == (if end.thrown then Thrown else Ok(!Stale(old(model), state)))
              && announced == old(announced) + Listed(end.sent) && Told(routing, old(routing.outbox), end.sent)
      ensures Grown(old(vertices)) && forall x :: x in vertices && x !in old(vertices) ==> fresh(vertices[x])
      decreases if state.id == self && LocalReady(model) then 0 else 2, 1
    {
      hide *;
      ValidMeans();
      HoldsMeans(vertices, model.vertices);
      GrownMeans(vertices);
      if state.id in vertices {
        ReceiveKnown(model, state, routing.neighbors.Keys);
        OutcomeMeans(model, None);
        ToldMeans(routing, routing.outbox, None);
        var v := vertices[state.id];
        if v.state.Some? && CompareSequence(state.sequence, v.state.value.sequence) <= 0 {
          assert old(announced) + [] == old(announced);
          return Ok(false);
        }
        accepted := Renew(state);
      } else {
        ReceiveUnknown(model, state, routing.neighbors.Keys);
        accepted := Meet(state);
      }
    }

    /** News of a known vertex. */
    method Renew(state: State) returns (accepted: Result<bool>)
      requires Valid() && Receivable(model, state) && state.id in model.vertices && !Stale(model, state)
      modifies this`vertices, this`table, this`model, this`stateSequence, this`announced
      modifies routing`table, routing`outbox, vertices.Values
      ensures Valid()
      ensures var end := Reception(old(model), state, routing.neighbors.Keys);
              && model == end.local && accepted == (if end.thrown then Thrown else Ok(true))
              && announced == old(announced) + Listed(end.sent) && Told(routing, old(routing.outbox), end.sent)
      ensures Grown(old(vertices)) && forall x :: x in vertices && x !in old(vertices) ==> fresh(vertices[x])
      decreases if state.id == self && LocalReady(model) then 0 else 2, 0
    {
      hide *;
      ValidMeans();
      HoldsMeans(vertices, model.vertices);
      ReceiveKnown(model, state, routing.neighbors.Keys);
      var v := vertices[state.id];
      if v.state.None? || v.state.value.key != state.key {
        accepted := RenewAnnounced(state);
      } else {
        OutcomeMeans(Store(CachedTable.Direct, model, state), None);
        ToldMeans(routing, routing.outbox, None);
        assert old(announced) + [] == old(announced);
        Accept(state);
        ToldMeans(routing, old(routing.outbox), None);
        accepted := Ok(true);
      }
    }

    /** A known vertex's first state or new key: announced to before it is stored. */
    method RenewAnnounced(state: State) returns (accepted: Result<bool>)
      requires Valid() && Receivable(model, state) && state.id in model.vertices
      requires !Stale(model, state) && Provokes(model, state)
      modifies this`vertices, this`table, this`model, this`stateSequence, this`announced
      modifies routing`table, routing`outbox, vertices.Values
      ensures Valid()
      ensures var end := Reception(old(model), state, routing.neighbors.Keys);
              && model == end.local && accepted == (if end.thrown then Thrown else Ok(true))
              && announced == old(announced) + Listed(end.sent) && Told(routing, old(routing.outbox), end.sent)
      ensures Grown(old(vertices)) && forall x :: x in vertices && x !in old(vertices) ==> fresh(vertices[x])
      decreases 1, 1
    {
      hide *;
      ValidMeans();
      ReceiveKnown(model, state, routing.neighbors.Keys);
      ghost var was, news := model, Announcement(model, routing.neighbors.Keys);
      var thrown := BroadcastState();
      GrownMeans(old(vertices));
      if thrown {
        OutcomeMeans(Counted(was), None);
        ToldMeans(routing, old(routing.outbox), None);
        assert old(announced) + [] == old(announced);
        return Thrown;
      }
      OutcomeMeans(Store(CachedTable.Direct, model, state), Some(news));
      ToldMeans(routing, old(routing.outbox), Some(news));
      ValidMeans();
      ghost var mid := vertices;
      Accept(state);
      GrownMeans(mid);
      GrownMeans(old(vertices));
      ToldMeans(routing, old(routing.outbox), Some(news));
      accepted := Ok(true);
    }

    /** A state of an unknown vertex: it is entered, announced to, and only then given its edges. */
    method Meet(state: State) returns (accepted: Result<bool>)
      requires Valid() && Receivable(model, state) && state.id !in model.vertices
      modifies this`vertices, this`table, this`model, this`stateSequence, this`announced
      modifies routing`table, routing`outbox, vertices.Values
      ensures Valid()
      ensures var end := Reception(old(model), state, routing.neighbors.Keys);
              && model == end.local && accepted == (if end.thrown then Thrown else Ok(true))
              && announced == old(announced) + Listed(end.sent) && Told(routing, old(routing.outbox), end.sent)
      ensures Grown(old(vertices)) && forall x :: x in vertices && x !in old(vertices) ==> fresh(vertices[x])
      decreases 2, 0
    {
      hide *;
      ValidMeans();
      ReceiveUnknown(model, state, routing.neighbors.Keys);
      HoldsMeans(vertices, model.vertices);
      Enter(state);
      ghost var entered, known := vertices, model;
      ghost var news := Announcement(known, routing.neighbors.Keys);
      GrownMeans(old(vertices));
      AnnounceKeeps(known, routing.neighbors.Keys);
      ValidMeans();
      var thrown := BroadcastState();
      ValidMeans();
      GrownMeans(entered);
      GrownMeans(old(vertices));
      if thrown {
        OutcomeMeans(Counted(known), None);
        ToldMeans(routing, old(routing.outbox), None);
        assert old(announced) + [] == old(announced);
        return Thrown;
      }
      OutcomeMeans(Linked(model, state.id), Some(news));
      ToldMeans(routing, old(routing.outbox), Some(news));
      ghost var mid := vertices;
      var changed := Relink(state.id);
      GrownMeans(mid);
      GrownMeans(old(vertices));
      ToldMeans(routing, old(routing.outbox), Some(news));
      accepted := Ok(true);
    }

    method Enter(state: State)
      requires Valid() && state.id !in vertices
      modifies this`vertices, this`model
      ensures Valid() && model == Entered(old(model), state) && state.id in model.vertices
      ensures Grown(old(vertices)) && forall x :: x in vertices && x !in old(vertices) ==> fresh(vertices[x])
    {
      ghost var was := model;
      assert Entered(was, state) == was.(vertices := was.vertices[state.id := Vertex(Some(state), {})]);
      hide *;
      ValidMeans();
      vertices := EnterWith(vertices, state, model.vertices);
      model := Entered(model, state);
      ValidMeans();
      GrownMeans(old(vertices));
    }

    method Relink(id: Id) returns (changed: bool)
      requires Valid() && id in model.vertices && self in model.vertices
      modifies this`vertices, this`table, this`model, routing`table, vertices.Values
      ensures Valid() && model == Linked(old(model), id)
      ensures Grown(old(vertices)) && forall x :: x in vertices && x !in old(vertices) ==> fresh(vertices[x])
    {
      hide *;
      ValidMeans();
      HoldsMeans(vertices, model.vertices);
      LinkedMeans(model, id);
      GrownMeans(vertices);
      var stored := vertices[id].state;
      changed := false;
      if stored.Some? { changed := UpdateEdges(id, stored.value.neighbors); }
    }

    /**
     A state arrives from a channel: if it is news, it is relayed to every other open channel.
     A malformed message throws at once; an announcement that does not fit throws before the relay.
     */
    method NotifyState(message: Message, channel: Channel) returns (accepted: Result<bool>)
      requires Valid() && LocalReady(model)
      requires FromMessage(message).Some? ==> Receivable(model, FromMessage(message).value)
      modifies this`vertices, this`table, this`model, this`stateSequence, this`announced
      modifies routing`table, routing`outbox, vertices.Values
      ensures Valid()
      ensures FromMessage(message).None? ==>
                accepted == Thrown && model == old(model) && routing.outbox == old(routing.outbox)
      ensures FromMessage(message).Some? ==>
                var state := FromMessage(message).value;
                var end := Reception(old(model), state, routing.neighbors.Keys);
                && model == end.local && accepted == (if end.thrown then Thrown else Ok(!Stale(old(model), state)))
                && Relayed(routing, old(routing.outbox), end.sent, accepted == Ok(true), message, channel)
    {
      hide *;
      var parsed := FromMessage(message);
      if parsed.None? { return Thrown; }
      ghost var end := Reception(model, parsed.value, routing.neighbors.Keys);
      accepted := UpdateVertice(parsed.value);
      ToldMeans(routing, old(routing.outbox), end.sent);
      ValidMeans();
      ghost var mid := routing.outbox;
      if accepted == Ok(true) {
        routing.Broadcast(message, Some(channel));
      }
      ValidMeans();
      ToldThenRelayed(routing, old(routing.outbox), mid, end.sent, accepted == Ok(true), message, channel);
    }

    /** The routing's neighbours changed. */
    method NotifyNeighbor() returns (thrown: bool)
      requires Valid() && LocalReady(model)
      modifies this`vertices, this`table, this`model, this`stateSequence, this`announced
      modifies routing`table, routing`outbox, vertices.Values
      ensures Valid()
      ensures var end := Attempt(CachedTable.Direct, old(model), NeighborChange(routing.neighbors.Keys));
              && model == end.local && thrown == end.thrown && Told(routing, old(routing.outbox), end.sent)
      ensures Grown(old(vertices)) && forall x :: x in vertices && x !in old(vertices) ==> fresh(vertices[x])
    {
      hide *;
      ValidMeans();
      ChangeMeans(model, routing.neighbors.Keys);
      ghost var before, news := vertices, Announcement(model, routing.neighbors.Keys);
      var changed := UpdateEdges(self, routing.neighbors.Keys);
      ghost var mid, linked := vertices, model;
      GrownMeans(before);
      ToldMeans(routing, old(routing.outbox), None);
      OutcomeMeans(linked, None);
      thrown := false;
      if changed {
        ValidMeans();
        thrown := BroadcastState();
        OutcomeMeans(model, if thrown then None else Some(news));
        ToldMeans(routing, old(routing.outbox), None);
        GrownMeans(mid);
        GrownMeans(before);
      }
    }

    /**
     A Hello arrives: a source that is no neighbour yet becomes one, through that channel, and
     only then the graph takes part.
     */
    method NotifyHello(source: Id, channel: Channel) returns (thrown: bool)
      requires Valid() && routing.Valid() && LocalReady(model)
      modifies this`vertices, this`table, this`model, this`stateSequence, this`announced
      modifies routing`table, routing`outbox, routing`neighbors, vertices.Values
      ensures Valid() && routing.Valid()
      ensures routing.neighbors == if source !in old(routing.neighbors) && channel in routing.channels
                                   then old(routing.neighbors)[source := channel] else old(routing.neighbors)
      ensures if routing.neighbors == old(routing.neighbors)
              then model == old(model) && routing.outbox == old(routing.outbox) && !thrown
              else
                var end := Attempt(CachedTable.Direct, old(model), NeighborChange(routing.neighbors.Keys));
                model == end.local && thrown == end.thrown && Told(routing, old(routing.outbox), end.sent)
    {
      thrown := false;
      var has := routing.HasNeighbor(source);
      if !has {
        var emitted := routing.AddNeighbor(source, channel);
        if emitted {
          assert source in routing.neighbors && routing.neighbors != old(routing.neighbors);
          thrown := NotifyNeighbor();
        }
      }
    }
  }
}
