/** Walks and hop distances in a set of directed edges, and what a next-hop table should say. */
module Paths {
  import opened LinkState

  function Out(edges: Edges, u: Id): set<Id> {
    if u in edges then edges[u] else {}
  }

  /** There is a walk of exactly `k` edges from `u` to `v`. */
  ghost predicate Walk(edges: Edges, u: Id, v: Id, k: nat)
    decreases k
  {
    if k == 0 then u == v else exists w :: w in Out(edges, u) && Walk(edges, w, v, k - 1)
  }

  lemma {:induction false} WalkAppend(edges: Edges, u: Id, v: Id, w: Id, k: nat)
    requires Walk(edges, u, v, k) && w in Out(edges, v)
    ensures Walk(edges, u, w, k + 1)
    decreases k
  {
    if k == 0 {
      assert Walk(edges, w, w, 0);
    } else {
      var x :| x in Out(edges, u) && Walk(edges, x, v, k - 1);
      WalkAppend(edges, x, v, w, k - 1);
    }
  }

  /** `d` is the length of a shortest walk, or -1 when there is none. */
  ghost predicate IsDistance(edges: Edges, u: Id, v: Id, d: int) {
    if d < 0 then d == -1 && forall k: nat :: !Walk(edges, u, v, k)
    else Walk(edges, u, v, d) && forall k: nat :: k < d ==> !Walk(edges, u, v, k)
  }

  ghost predicate Reachable(edges: Edges, u: Id, v: Id) {
    exists k: nat :: Walk(edges, u, v, k)
  }

  /** `hop` is a neighbour of `u` from which a shortest walk from `u` to `v` goes on. */
  ghost predicate Begins(edges: Edges, u: Id, hop: Id, v: Id) {
    hop in Out(edges, u) && exists d: nat :: Walk(edges, hop, v, d) && IsDistance(edges, u, v, d + 1)
  }

  /**
   The table a shortest-path computation should give: an entry for exactly the reachable
   other vertices, naming a neighbour that begins a shortest walk.
   */
  ghost predicate IsShortestTable(self: Id, edges: Edges, table: Table) {
    && (forall v :: v in table <==> v != self && Reachable(edges, self, v))
    && forall v :: v in table ==> Begins(edges, self, table[v], v)
  }

  /** Walks only depend on where the edges are, not on which vertices are listed. */
  lemma {:induction false} SameWalks(e1: Edges, e2: Edges, u: Id, v: Id, k: nat)
    requires SameOut(e1, e2)
    ensures Walk(e1, u, v, k) <==> Walk(e2, u, v, k)
    decreases k
  {
    if k > 0 {
      forall w | w in Out(e1, u) ensures Walk(e1, w, v, k - 1) <==> Walk(e2, w, v, k - 1) {
        SameWalks(e1, e2, w, v, k - 1);
      }
    }
  }

  ghost predicate SameOut(e1: Edges, e2: Edges) {
    forall x :: Out(e1, x) == Out(e2, x)
  }

  lemma SameReach(e1: Edges, e2: Edges, u: Id, v: Id)
    requires SameOut(e1, e2) && Reachable(e1, u, v)
    ensures Reachable(e2, u, v)
  {
    var k: nat :| Walk(e1, u, v, k);
    SameWalks(e1, e2, u, v, k);
  }

  lemma SameDistance(e1: Edges, e2: Edges, u: Id, v: Id, d: int)
    requires SameOut(e1, e2) && IsDistance(e1, u, v, d)
    ensures IsDistance(e2, u, v, d)
  {
    forall k: nat ensures Walk(e1, u, v, k) <==> Walk(e2, u, v, k) {
      SameWalks(e1, e2, u, v, k);
    }
  }

  lemma SameBegins(e1: Edges, e2: Edges, u: Id, hop: Id, v: Id)
    requires SameOut(e1, e2) && Begins(e1, u, hop, v)
    ensures Begins(e2, u, hop, v)
  {
    var d: nat :| Walk(e1, hop, v, d) && IsDistance(e1, u, v, d + 1);
    SameWalks(e1, e2, hop, v, d);
    SameDistance(e1, e2, u, v, d + 1);
  }

  lemma SameTables(self: Id, e1: Edges, e2: Edges, table: Table)
    requires SameOut(e1, e2) && IsShortestTable(self, e1, table)
    ensures IsShortestTable(self, e2, table)
  {
    forall v | v in table ensures Begins(e2, self, table[v], v) {
      SameBegins(e1, e2, self, table[v], v);
    }
    forall v ensures v in table <==> v != self && Reachable(e2, self, v) {
      if Reachable(e1, self, v) {
        SameReach(e1, e2, self, v);
      }
      if Reachable(e2, self, v) {
        SameReach(e2, e1, self, v);
      }
    }
  }
}

/** The scratch fields of the vertices during the table computation, in both readings of its test. */
module Labels {
  import opened Common
  import opened LinkState
  import opened Paths

  datatype Label = Label(distance: int, hop: Option<Id>, visited: bool)

  type Labelling = map<Id, Label>

  /** Every vertex an edge leads to is known. */
  ghost predicate Graph(self: Id, edges: Edges) {
    self in edges && forall u :: u in edges ==> edges[u] <= edges.Keys
  }

  /** What a label says is true of the edges. */
  ghost predicate Sound(self: Id, edges: Edges, v: Id, x: Label) {
    if x.distance < 0 then x == Label(-1, None, false)
    else if v == self then x.distance == 0 && x.hop.None?
    else x.distance > 0 && x.hop.Some? && x.hop.value in Out(edges, self)
         && Walk(edges, x.hop.value, v, x.distance - 1)
  }

  /** Visited vertices are no farther than `d`, the others found so far are at `d` or `d + 1`. */
  ghost predicate Layered(x: Label, d: int) {
    x.distance >= 0 ==> if x.visited then x.distance <= d else d <= x.distance <= d + 1
  }

  /** The vertices in `to` have been found, at most one hop farther than `d`. */
  ghost predicate Expanded(labels: Labelling, to: set<Id>, d: int) {
    forall w :: w in to ==> w in labels && 0 <= labels[w].distance <= d + 1
  }

  ghost predicate Truthful(self: Id, edges: Edges, labels: Labelling) {
    && Graph(self, edges) && labels.Keys == edges.Keys && labels[self].distance == 0
    && forall v :: v in labels ==> Sound(self, edges, v, labels[v])
  }

  ghost predicate AllLayered(labels: Labelling, d: int) {
    forall v :: v in labels ==> Layered(labels[v], d)
  }

  /** Every visited vertex but `open` has had its edges followed. */
  ghost predicate Closed(edges: Edges, labels: Labelling, open: set<Id>) {
    forall u :: u in labels && u in edges && labels[u].visited && u !in open ==>
      Expanded(labels, edges[u], labels[u].distance)
  }

  /** What holds while vertex `now`, at distance `d`, is having its edges `seen` followed. */
  ghost predicate Searching(self: Id, edges: Edges, labels: Labelling, d: int, now: Id, seen: set<Id>) {
    && Truthful(self, edges, labels) && AllLayered(labels, d) && Closed(edges, labels, {now})
    && now in labels && labels[now].visited && labels[now].distance == d
    && seen <= edges[now] && Expanded(labels, seen, d)
  }

  /** Between two vertices: every visited vertex is done. */
  ghost predicate Between(self: Id, edges: Edges, labels: Labelling, d: int) {
    Truthful(self, edges, labels) && AllLayered(labels, d) && Closed(edges, labels, {})
  }

  function Fresh(edges: Edges, self: Id): Labelling {
    map v | v in edges :: if v == self then Label(0, None, false) else Label(-1, None, false)
  }

  lemma FreshIsBetween(self: Id, edges: Edges)
    requires Graph(self, edges)
    ensures Between(self, edges, Fresh(edges, self), 0)
  {
  }

  /** The vertex is found, unvisited, and none such is nearer. */
  ghost predicate Front(labels: Labelling, v: Id) {
    && v in labels && !labels[v].visited && labels[v].distance >= 0
    && forall u :: u in labels && labels[u].distance >= 0 && !labels[u].visited ==>
         labels[v].distance <= labels[u].distance
  }

  lemma VisitLayers(labels: Labelling, d: int, v: Id)
    requires AllLayered(labels, d) && Front(labels, v)
    ensures d <= labels[v].distance && AllLayered(labels[v := labels[v].(visited := true)], labels[v].distance)
  {
    assert Layered(labels[v], d);
  }

  lemma VisitTruth(self: Id, edges: Edges, labels: Labelling, v: Id)
    requires Truthful(self, edges, labels) && Front(labels, v)
    ensures Truthful(self, edges, labels[v := labels[v].(visited := true)])
  {
    assert Sound(self, edges, v, labels[v]);
  }

  /** Taking a vertex from the front of the queue. */
  lemma VisitStarts(self: Id, edges: Edges, labels: Labelling, d: int, v: Id)
    requires Between(self, edges, labels, d) && Front(labels, v)
    ensures d <= labels[v].distance
    ensures Searching(self, edges, labels[v := labels[v].(visited := true)], labels[v].distance, v, {})
  {
    VisitLayers(labels, d, v);
    VisitTruth(self, edges, labels, v);
    var labels' := labels[v := labels[v].(visited := true)];
    forall u | u in labels' && labels'[u].visited && u != v
      ensures Expanded(labels', edges[u], labels'[u].distance)
    {
      assert Expanded(labels, edges[u], labels[u].distance);
    }
  }

  lemma VisitEnds(self: Id, edges: Edges, labels: Labelling, d: int, now: Id)
    requires now in edges && Searching(self, edges, labels, d, now, edges[now])
    ensures Between(self, edges, labels, d)
  {
  }

  /** The intended test: the neighbour has no next hop yet, or the new distance is smaller. */
  predicate Improves(labels: Labelling, now: Id, v: Id)
    requires now in labels && v in labels
  {
    !labels[v].visited && (labels[v].hop.None? || labels[now].distance + 1 < labels[v].distance)
  }

  function Relaxed(labels: Labelling, now: Id, v: Id): Labelling
    requires now in labels && v in labels
  {
    if Improves(labels, now, v) then
      labels[v := Label(labels[now].distance + 1, if labels[now].hop.Some? then labels[now].hop else Some(v), false)]
    else labels
  }

  /** Only a vertex never found before improves, so none is queued twice. */
  lemma ImprovesOnlyOnce(self: Id, edges: Edges, labels: Labelling, d: int, now: Id, seen: set<Id>, v: Id)
    requires Searching(self, edges, labels, d, now, seen) && v in edges[now]
    ensures Improves(labels, now, v) <==> labels[v].distance < 0
  {
    assert Sound(self, edges, v, labels[v]) && Layered(labels[v], d);
  }

  /** A vertex found through `now` takes over its next hop, or is its own when `now` is local. */
  lemma NewLabelSound(self: Id, edges: Edges, now: Id, x: Label, v: Id)
    requires Sound(self, edges, now, x) && x.distance >= 0 && v in Out(edges, now) && v != self
    ensures Sound(self, edges, v, Label(x.distance + 1, if x.hop.Some? then x.hop else Some(v), false))
  {
    if x.hop.Some? {
      WalkAppend(edges, x.hop.value, now, v, x.distance - 1);
    }
  }

  lemma RelaxKeepsTruth(self: Id, edges: Edges, labels: Labelling, d: int, now: Id, seen: set<Id>, v: Id)
    requires Searching(self, edges, labels, d, now, seen) && v in edges[now]
    ensures Truthful(self, edges, Relaxed(labels, now, v))
  {
    ImprovesOnlyOnce(self, edges, labels, d, now, seen, v);
    if Improves(labels, now, v) {
      assert Sound(self, edges, now, labels[now]);
      NewLabelSound(self, edges, now, labels[now], v);
    }
  }

  /** Labels once given never change, so what was expanded stays expanded. */
  lemma RelaxKeepsLayers(self: Id, edges: Edges, labels: Labelling, d: int, now: Id, seen: set<Id>, v: Id)
    requires Searching(self, edges, labels, d, now, seen) && v in edges[now]
    ensures AllLayered(Relaxed(labels, now, v), d)
    ensures forall u :: u in labels && labels[u].distance >= 0 ==> Relaxed(labels, now, v)[u] == labels[u]
    ensures 0 <= Relaxed(labels, now, v)[v].distance <= d + 1
    ensures forall u :: u in labels ==> Relaxed(labels, now, v)[u].visited == labels[u].visited
  {
    ImprovesOnlyOnce(self, edges, labels, d, now, seen, v);
    assert Sound(self, edges, v, labels[v]) && Layered(labels[v], d);
  }

  lemma RelaxKeepsSearching(self: Id, edges: Edges, labels: Labelling, d: int, now: Id, seen: set<Id>, v: Id)
    requires Searching(self, edges, labels, d, now, seen) && v in edges[now]
    ensures Searching(self, edges, Relaxed(labels, now, v), d, now, seen + {v})
  {
    RelaxKeepsTruth(self, edges, labels, d, now, seen, v);
    RelaxKeepsLayers(self, edges, labels, d, now, seen, v);
    StaysClosed(self, edges, labels, Relaxed(labels, now, v), {now});
  }

  lemma StaysClosed(self: Id, edges: Edges, labels: Labelling, labels': Labelling, open: set<Id>)
    requires Truthful(self, edges, labels) && Closed(edges, labels, open) && labels'.Keys == labels.Keys
    requires forall u :: u in labels && labels[u].distance >= 0 ==> labels'[u] == labels[u]
    requires forall u :: u in labels ==> labels'[u].visited == labels[u].visited
    ensures Closed(edges, labels', open)
  {
    forall u | u in labels && labels[u].visited && u !in open
      ensures Expanded(labels', edges[u], labels'[u].distance)
    {
      assert Sound(self, edges, u, labels[u]);
      assert Expanded(labels, edges[u], labels[u].distance);
    }
  }

  /** No vertex waits in the queue. */
  ghost predicate AllVisited(labels: Labelling) {
    forall x :: x in labels && labels[x].distance >= 0 ==> labels[x].visited
  }

  /** No edge leads from a found vertex to one that is two or more hops farther, or not found. */
  ghost predicate Tight(edges: Edges, labels: Labelling) {
    forall u :: u in labels && labels[u].distance >= 0 ==> Expanded(labels, Out(edges, u), labels[u].distance)
  }

  lemma DoneIsTight(self: Id, edges: Edges, labels: Labelling, d: int)
    requires Between(self, edges, labels, d) && AllVisited(labels)
    ensures Tight(edges, labels)
  {
  }

  /** Then every walk is at least as long as the labels of its ends tell. */
  lemma {:induction false} LabelsAreShortest(edges: Edges, labels: Labelling, u: Id, v: Id, k: nat)
    requires Tight(edges, labels) && Walk(edges, u, v, k)
    requires u in labels && labels[u].distance >= 0
    ensures v in labels && 0 <= labels[v].distance <= labels[u].distance + k
    decreases k
  {
    if k > 0 {
      var w :| w in Out(edges, u) && Walk(edges, w, v, k - 1);
      assert Expanded(labels, Out(edges, u), labels[u].distance);
      LabelsAreShortest(edges, labels, w, v, k - 1);
    }
  }

  /** A label's distance is the length of a walk from the local vertex. */
  lemma LabelIsWalk(self: Id, edges: Edges, v: Id, x: Label)
    requires Sound(self, edges, v, x) && x.distance >= 0
    ensures Walk(edges, self, v, x.distance)
  {
  }

  /** On termination, the distances are the hop distances and the next hops start shortest walks. */
  lemma DoneIsShortest(self: Id, edges: Edges, labels: Labelling, d: int, v: Id)
    requires Between(self, edges, labels, d) && v in labels
    requires AllVisited(labels)
    ensures IsDistance(edges, self, v, labels[v].distance)
    ensures labels[v].hop.Some? <==> v != self && labels[v].distance >= 0
  {
    assert Sound(self, edges, v, labels[v]);
    if labels[v].distance >= 0 {
      LabelIsWalk(self, edges, v, labels[v]);
    }
    DoneIsTight(self, edges, labels, d);
    forall k: nat | Walk(edges, self, v, k) ensures 0 <= labels[v].distance <= k {
      LabelsAreShortest(edges, labels, self, v, k);
    }
  }

  function TableOf(labels: Labelling): Table {
    map v | v in labels && labels[v].hop.Some? :: labels[v].hop.value
  }

  lemma DoneBegins(self: Id, edges: Edges, labels: Labelling, d: int, v: Id)
    requires Between(self, edges, labels, d) && v in labels && labels[v].hop.Some?
    requires AllVisited(labels)
    ensures v != self && Reachable(edges, self, v) && Begins(edges, self, labels[v].hop.value, v)
  {
    var x := labels[v];
    assert Sound(self, edges, v, x);
    DoneIsShortest(self, edges, labels, d, v);
    LabelIsWalk(self, edges, v, x);
    assert IsDistance(edges, self, v, (x.distance - 1) + 1);
  }

  lemma DoneGivesTable(self: Id, edges: Edges, labels: Labelling, d: int)
    requires Between(self, edges, labels, d)
    requires AllVisited(labels)
    ensures IsShortestTable(self, edges, TableOf(labels))
  {
    var table := TableOf(labels);
    forall v | v in table ensures v != self && Reachable(edges, self, v) && Begins(edges, self, table[v], v) {
      DoneBegins(self, edges, labels, d, v);
    }
    forall v | v != self && Reachable(edges, self, v) ensures v in table {
      var k: nat :| Walk(edges, self, v, k);
      DoneIsTight(self, edges, labels, d);
      LabelsAreShortest(edges, labels, self, v, k);
      assert Sound(self, edges, v, labels[v]);
    }
  }
}
