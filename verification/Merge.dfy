/** Merging received states does not depend on the order, or the number of times, they arrive. */
module Merge {
  import opened Common
  import opened Sequence
  import opened LinkState

  function StoredAt(vertices: map<Id, Vertex>, id: Id): Option<State> {
    if id in vertices then vertices[id].state else None
  }

  function EdgesAt(vertices: map<Id, Vertex>, id: Id): set<Id> {
    if id in vertices then vertices[id].edges else {}
  }

  /** The true counters behind the sequences of a pool of states. */
  type Numbering = State -> int

  /**
   One state per identifier and number, wrapped as its sequence says, and any two of one
   identifier close enough to compare.
   */
  ghost predicate Comparable(num: Numbering, pool: set<State>) {
    && (forall s :: s in pool ==> s.sequence == Wrap(num(s)))
    && (forall s, t :: s in pool && t in pool && s.id == t.id ==> InWindow(num(s) - num(t)))
    && (forall s, t :: s in pool && t in pool && s.id == t.id && num(s) == num(t) ==> s == t)
  }

  ghost predicate Newest(num: Numbering, pool: set<State>, id: Id, stored: Option<State>) {
    match stored
    case None => forall s :: s in pool ==> s.id != id
    case Some(s) => s in pool && s.id == id && forall t :: t in pool && t.id == id ==> num(t) <= num(s)
  }

  ghost predicate HoldsNewest(num: Numbering, pool: set<State>, g: Local) {
    forall id :: id != g.self ==> Newest(num, pool, id, StoredAt(g.vertices, id))
  }

  lemma NewestIsUnique(num: Numbering, pool: set<State>, id: Id, a: Option<State>, b: Option<State>)
    requires Comparable(num, pool) && Newest(num, pool, id, a) && Newest(num, pool, id, b)
    ensures a == b
  {
  }

  /** A state of another node replaces exactly what is stored for that node. */
  lemma MergedStores(g: Local, s: State, neighbors: set<Id>, id: Id)
    requires id != g.self
    ensures StoredAt(Merged(g, s, neighbors), id) == if id == s.id then Some(s) else StoredAt(g.vertices, id)
  {
  }

  lemma InsertHoldsNewest(route: Router, num: Numbering, pool: set<State>, g: Local, e: Event)
    requires Shape(g) && HoldsNewest(num, pool, g) && e.Insert? && e.state.id != g.self
    requires Comparable(num, pool + {e.state})
    ensures HoldsNewest(num, pool + {e.state}, React(route, g, e))
  {
    var s := e.state;
    UpdateKeepsSelf(route, g, s, e.neighbors);
    var stored := StoredAt(g.vertices, s.id);
    assert Newest(num, pool, s.id, stored);
    if stored.Some? {
      assert stored.value in pool + {s} && s in pool + {s};
      CompareExact(num(s), num(stored.value));
    }
    if !Stale(g, s) {
      InsertResult(route, g, s, e.neighbors);
    }
    forall id | id != g.self
      ensures Newest(num, pool + {s}, id, StoredAt(React(route, g, e).vertices, id))
    {
      assert Newest(num, pool, id, StoredAt(g.vertices, id));
      MergedStores(g, s, e.neighbors, id);
    }
  }

  /** A change of neighbours touches the stored state of no other node. */
  lemma NeighborChangeHoldsNewest(route: Router, num: Numbering, pool: set<State>, g: Local, e: Event)
    requires Shape(g) && HoldsNewest(num, pool, g) && e.NeighborChange?
    ensures HoldsNewest(num, pool, React(route, g, e))
  {
    var g1 := SetEdges(route, g, g.self, e.neighbors);
    AnnounceResult(route, g1, e.neighbors);
    forall id | id != g.self
      ensures StoredAt(React(route, g, e).vertices, id) == StoredAt(g.vertices, id)
    {
    }
  }

  /** The states a run brings in. */
  function Inputs(events: seq<Event>): set<State> {
    set e | e in events && e.Insert? :: e.state
  }

  ghost predicate Remote(self: Id, events: seq<Event>) {
    forall e :: e in events && e.Insert? ==> e.state.id != self
  }

  lemma {:induction false} RunHoldsNewest(routes: seq<Router>, num: Numbering, pool: set<State>, g: Local,
                                          events: seq<Event>, final: Local)
    requires Shape(g) && HoldsNewest(num, pool, g) && Remote(g.self, events)
    requires Comparable(num, pool + Inputs(events)) && Reaches(routes, g, events, final)
    ensures Shape(final) && final.self == g.self && HoldsNewest(num, pool + Inputs(events), final)
    decreases events
  {
    if events == [] {
      assert pool + Inputs(events) == pool;
    } else {
      var e, rest := events[0], events[1..];
      ReactShape(routes[0], g, e);
      if e.Insert? {
        assert Inputs(events) == {e.state} + Inputs(rest);
        assert pool + Inputs(events) == (pool + {e.state}) + Inputs(rest);
        InsertHoldsNewest(routes[0], num, pool, g, e);
        RunHoldsNewest(routes[1..], num, pool + {e.state}, React(routes[0], g, e), rest, final);
      } else {
        assert Inputs(events) == Inputs(rest);
        NeighborChangeHoldsNewest(routes[0], num, pool, g, e);
        RunHoldsNewest(routes[1..], num, pool, React(routes[0], g, e), rest, final);
      }
    }
  }

  /** The states of other nodes a graph starts with. */
  ghost function Pool(g: Local): set<State> {
    set id | id in g.vertices && id != g.self && g.vertices[id].state.Some? :: g.vertices[id].state.value
  }

  lemma PoolHeld(num: Numbering, g: Local)
    requires Shape(g)
    ensures HoldsNewest(num, Pool(g), g)
  {
    forall id | id != g.self ensures Newest(num, Pool(g), id, StoredAt(g.vertices, id)) {
      assert forall s :: s in Pool(g) ==> s.id in g.vertices && g.vertices[s.id].state == Some(s);
    }
  }

  /**
   Two runs that bring in the same states, in any order and with any repetitions, whatever
   the local neighbours do meanwhile, end with the same state and the same edges for every
   other node.
   */
  lemma OrderDoesNotMatter(routes1: seq<Router>, routes2: seq<Router>, num: Numbering, g: Local,
                           events1: seq<Event>, final1: Local, events2: seq<Event>, final2: Local, id: Id)
    requires Shape(g) && Reaches(routes1, g, events1, final1) && Reaches(routes2, g, events2, final2)
    requires Remote(g.self, events1) && Remote(g.self, events2) && Inputs(events1) == Inputs(events2)
    requires Comparable(num, Pool(g) + Inputs(events1)) && id != g.self
    ensures StoredAt(final1.vertices, id) == StoredAt(final2.vertices, id)
    ensures EdgesAt(final1.vertices, id) == EdgesAt(final2.vertices, id)
  {
    PoolHeld(num, g);
    RunHoldsNewest(routes1, num, Pool(g), g, events1, final1);
    RunHoldsNewest(routes2, num, Pool(g), g, events2, final2);
    NewestIsUnique(num, Pool(g) + Inputs(events1), id,
                   StoredAt(final1.vertices, id), StoredAt(final2.vertices, id));
  }

  /**
   What such a run ends with: for every other node the newest state seen, and its
   neighbours as edges.  A vertex beyond those has neither state nor edges.
   */
  lemma EndsWithNewest(routes: seq<Router>, num: Numbering, g: Local, events: seq<Event>, final: Local, id: Id)
    requires Shape(g) && Reaches(routes, g, events, final) && Remote(g.self, events)
    requires Comparable(num, Pool(g) + Inputs(events)) && id != g.self
    ensures var stored := StoredAt(final.vertices, id);
            && Newest(num, Pool(g) + Inputs(events), id, stored)
            && EdgesAt(final.vertices, id) == if stored.Some? then stored.value.neighbors else {}
  {
    PoolHeld(num, g);
    RunHoldsNewest(routes, num, Pool(g), g, events, final);
  }
}
