/**
 The vertex objects of the graph, and the next-hop computation that runs over them in
 place: as the code has it, and in the reading its comments suggest.
 */
module Vertices {
  import opened Common
  import opened LinkState
  import opened Paths
  import opened Labels
  import opened BinaryHeap

  class Vertice {
    const id: Id
    /** Where the object lives; ties between equal distances are broken by it. */
    const address: nat
    var state: Option<State>
    var edges: map<Id, Vertice>
    var nextHop: Vertice?
    var distance: int
    var visited: bool

    constructor (id: Id, address: nat)
      ensures this.id == id && this.address == address
      ensures state == None && edges == map[] && nextHop == null && distance == -1 && !visited
    {
      this.id, this.address := id, address;
      state, edges, nextHop, distance, visited := None, map[], null, -1, false;
    }
  }

  type Pointers = map<Id, Vertice>

  /** Each vertex is entered under its own identifier. */
  ghost predicate Named(vs: Pointers) {
    forall id :: id in vs ==> vs[id].id == id
  }

  /** The edges of a vertex lead to the very objects entered for their ends. */
  ghost predicate Leads(vs: Pointers, v: Vertice)
    reads v`edges
  {
    forall to :: to in v.edges ==> to in vs && v.edges[to] == vs[to]
  }

  ghost function VertexOf(v: Vertice): Vertex
    reads v`state, v`edges
  {
    Vertex(v.state, v.edges.Keys)
  }

  /** The objects store what `vertices` says. */
  ghost predicate Stores(vs: Pointers, vertices: map<Id, Vertex>)
    reads vs.Values`state, vs.Values`edges
  {
    vs.Keys == vertices.Keys && forall id :: id in vs ==> VertexOf(vs[id]) == vertices[id]
  }

  ghost function LabelOf(v: Vertice): Label
    reads v`nextHop, v`distance, v`visited
  {
    Label(v.distance, if v.nextHop == null then None else Some(v.nextHop.id), v.visited)
  }

  /** The scratch fields are as `labels` says. */
  ghost predicate Labelled(vs: Pointers, labels: Labelling)
    reads vs.Values`nextHop, vs.Values`distance, vs.Values`visited
  {
    vs.Keys == labels.Keys && forall id :: id in vs ==> LabelOf(vs[id]) == labels[id]
  }

  type Queue = seq<Entry<Vertice>>

  /** An entry names a vertex that was found, by its distance. */
  ghost predicate Enters(vs: Pointers, labels: Labelling, e: Entry<Vertice>) {
    && e.item.id in vs && vs[e.item.id] == e.item && e.address == e.item.address
    && e.item.id in labels && 0 <= e.distance == labels[e.item.id].distance
  }

  /**
   The queue holds exactly the found vertices that wait to be visited, each once, under its
   distance; besides them, while it is being visited, the vertex in `busy`.
   */
  ghost predicate Queued(vs: Pointers, labels: Labelling, queue: Queue, busy: set<Id>) {
    && IsHeap(queue)
    && (forall i :: 0 <= i < |queue| ==> Enters(vs, labels, queue[i]))
    && (forall i :: 0 <= i < |queue| && labels[queue[i].item.id].visited ==> queue[i].item.id in busy)
    && (forall i :: 0 <= i < |queue| ==> multiset(queue)[queue[i]] == 1)
    && (forall id :: id in labels && labels[id].distance >= 0 && !labels[id].visited ==> HasEntry(queue, id))
  }

  /** Some entry is the vertex's. */
  ghost predicate HasEntry(queue: Queue, id: Id) {
    exists e :: e in queue && e.item.id == id
  }

  lemma TopIsFront(vs: Pointers, labels: Labelling, queue: Queue)
    requires Queued(vs, labels, queue, {}) && queue != []
    ensures Front(labels, queue[0].item.id)
  {
    assert Enters(vs, labels, queue[0]);
    forall u | u in labels && labels[u].distance >= 0 && !labels[u].visited
      ensures queue[0].distance <= labels[u].distance
    {
      assert HasEntry(queue, u);
      var e :| e in queue && e.item.id == u;
      var i :| 0 <= i < |queue| && queue[i] == e;
      TopIsLeast(queue, i);
    }
  }

  /** Every queued distance is that of the vertex being visited, or one more. */
  lemma QueueSpansTwoLayers(vs: Pointers, labels: Labelling, queue: Queue, busy: set<Id>, d: int, i: nat)
    requires Queued(vs, labels, queue, busy) && AllLayered(labels, d) && i < |queue|
    requires forall id :: id in busy && id in labels ==> labels[id].distance == d
    ensures d <= queue[i].distance <= d + 1
  {
    assert Enters(vs, labels, queue[i]);
    assert Layered(labels[queue[i].item.id], d);
  }

  lemma VisitQueued(vs: Pointers, labels: Labelling, queue: Queue, v: Id)
    requires Queued(vs, labels, queue, {}) && v in labels
    ensures Queued(vs, labels[v := labels[v].(visited := true)], queue, {v})
  {
    var labels' := labels[v := labels[v].(visited := true)];
    forall i | 0 <= i < |queue| ensures Enters(vs, labels', queue[i]) {
      assert Enters(vs, labels, queue[i]);
    }
  }

  lemma PushQueued(vs: Pointers, labels: Labelling, queue: Queue, busy: set<Id>,
                   labels': Labelling, queue': Queue, v: Vertice)
    requires Queued(vs, labels, queue, busy) && IsHeap(queue')
    requires v.id in vs && vs[v.id] == v && v.id in labels && labels[v.id].distance < 0
    requires v.id in labels' && labels' == labels[v.id := labels'[v.id]]
    requires labels'[v.id].distance >= 0 && !labels'[v.id].visited
    requires multiset(queue') == multiset(queue) + multiset{Entry(labels'[v.id].distance, v.address, v)}
    ensures Queued(vs, labels', queue', busy)
  {
    var x := Entry(labels'[v.id].distance, v.address, v);
    forall e | e in queue ensures Enters(vs, labels', e) && e.item.id != v.id {
      assert Enters(vs, labels, e);
    }
    assert multiset(queue)[x] == 0;
    forall i | 0 <= i < |queue'|
      ensures Enters(vs, labels', queue'[i]) && (labels'[queue'[i].item.id].visited ==> queue'[i].item.id in busy)
    {
      assert queue'[i] in multiset(queue');
      if queue'[i] != x {
        assert queue'[i] in queue;
      }
    }
    forall id | id in labels' && labels'[id].distance >= 0 && !labels'[id].visited ensures HasEntry(queue', id) {
      if id == v.id {
        assert x in multiset(queue');
      } else {
        assert HasEntry(queue, id);
        var e :| e in queue && e.item.id == id;
        assert e in multiset(queue) && e in multiset(queue');
      }
    }
  }

  lemma PopQueued(vs: Pointers, labels: Labelling, queue: Queue, queue': Queue, v: Id)
    requires Queued(vs, labels, queue, {v}) && IsHeap(queue') && queue != [] && queue[0].item.id == v
    requires multiset(queue') == multiset(queue) - multiset{queue[0]}
    requires v in labels && labels[v].visited
    ensures Queued(vs, labels, queue', {})
  {
    assert Enters(vs, labels, queue[0]);
    assert queue[0] in multiset(queue);
    forall i | 0 <= i < |queue'|
      ensures Enters(vs, labels, queue'[i]) && queue'[i].item.id != v && multiset(queue')[queue'[i]] == 1
    {
      var e := queue'[i];
      assert e in multiset(queue');
      assert e in queue && e != queue[0];
      assert Enters(vs, labels, e);
    }
    forall id | id in labels && labels[id].distance >= 0 && !labels[id].visited ensures HasEntry(queue', id) {
      assert HasEntry(queue, id);
      var e :| e in queue && e.item.id == id;
      assert e in multiset(queue) && e != queue[0];
      assert e in multiset(queue');
    }
  }

  /** No two entries are of the same vertex. */
  ghost predicate Distinct(entries: Queue) {
    forall i, j :: 0 <= i < j < |entries| ==> entries[i].item.id != entries[j].item.id
  }

  /** What was put on the queue so far: the found vertices, each once, under its distance. */
  ghost predicate Pushes(vs: Pointers, labels: Labelling, pushed: Queue) {
    && Distinct(pushed)
    && (forall id :: id in labels ==> (HasEntry(pushed, id) <==> labels[id].distance >= 0))
    && (forall i :: 0 <= i < |pushed| ==> Enters(vs, labels, pushed[i]))
  }

  /** A vertex not found before is found and put on the queue. */
  lemma PushesMore(vs: Pointers, labels: Labelling, pushed: Queue, x: Entry<Vertice>, labels': Labelling)
    requires Pushes(vs, labels, pushed) && x.item.id in labels && labels[x.item.id].distance < 0
    requires x.item.id in labels' && labels' == labels[x.item.id := labels'[x.item.id]]
    requires x.item.id in vs && vs[x.item.id] == x.item && x.address == x.item.address
    requires 0 <= x.distance == labels'[x.item.id].distance
    ensures Pushes(vs, labels', pushed + [x])
  {
    var all := pushed + [x];
    forall i | 0 <= i < |pushed| ensures pushed[i].item.id != x.item.id {
      assert Enters(vs, labels, pushed[i]);
    }
    forall i | 0 <= i < |all| ensures Enters(vs, labels', all[i]) {
      assert i < |pushed| ==> Enters(vs, labels, pushed[i]);
    }
    forall id | id in labels' ensures HasEntry(all, id) <==> labels'[id].distance >= 0 {
      if id == x.item.id {
        assert x in all;
      } else if HasEntry(pushed, id) {
        var e :| e in pushed && e.item.id == id;
        assert e in all;
      }
    }
  }

  /** Marking a vertex as visited changes no distance. */
  lemma PushesMarked(vs: Pointers, labels: Labelling, pushed: Queue, v: Id)
    requires Pushes(vs, labels, pushed) && v in labels
    ensures Pushes(vs, Marked(labels, v), pushed)
  {
    forall i | 0 <= i < |pushed| ensures Enters(vs, Marked(labels, v), pushed[i]) {
      assert Enters(vs, labels, pushed[i]);
    }
  }

  /** Distances that never decrease and end no higher than `d`. */
  ghost predicate Ascending(entries: Queue, d: int) {
    && (forall i, j :: 0 <= i < j < |entries| ==> entries[i].distance <= entries[j].distance)
    && (forall i :: 0 <= i < |entries| ==> entries[i].distance <= d)
  }

  lemma Append(entries: Queue, d: int, e: Entry<Vertice>)
    requires Ascending(entries, d) && d <= e.distance
    ensures Ascending(entries + [e], e.distance)
  {
  }

  /**
   What a finished computation has done with its queue: it put every found vertex on it, once
   and under its distance, and no other; and it took all of them off in ascending order.
   */
  ghost predicate Disciplined(vs: Pointers, queue: PriorityQueue<Vertice>)
    reads queue, vs.Values`distance
  {
    && queue.Valid() && queue.heap == [] && Distinct(queue.pushed)
    && (forall id :: id in vs ==> (HasEntry(queue.pushed, id) <==> vs[id].distance >= 0))
    && (forall e :: e in queue.pushed ==> e.item.id in vs && vs[e.item.id] == e.item && e.distance == e.item.distance)
    && multiset(queue.popped) == multiset(queue.pushed)
    && (forall i, j :: 0 <= i < j < |queue.popped| ==> queue.popped[i].distance <= queue.popped[j].distance)
  }

  lemma EndsDisciplined(vs: Pointers, labels: Labelling, queue: PriorityQueue<Vertice>, d: int)
    requires Labelled(vs, labels) && queue.Valid() && queue.heap == []
    requires Pushes(vs, labels, queue.pushed) && Ascending(queue.popped, d)
    ensures Disciplined(vs, queue)
  {
    forall id | id in vs ensures HasEntry(queue.pushed, id) <==> vs[id].distance >= 0 {
      assert LabelOf(vs[id]) == labels[id];
    }
    forall e | e in queue.pushed
      ensures e.item.id in vs && vs[e.item.id] == e.item && e.distance == e.item.distance
    {
      var i :| 0 <= i < |queue.pushed| && queue.pushed[i] == e;
      assert Enters(vs, labels, queue.pushed[i]);
      assert LabelOf(vs[e.item.id]) == labels[e.item.id];
    }
  }

  /** The object graph holds exactly `vertices`, whatever its scratch fields. */
  ghost predicate Holds(vs: Pointers, vertices: map<Id, Vertex>)
    reads vs.Values`state, vs.Values`edges
  {
    Named(vs) && Stores(vs, vertices) && forall id :: id in vs ==> Leads(vs, vs[id])
  }

  type Outs = map<Id, Pointers>
  type States = map<Id, Option<State>>

  /** The object graph as `Holds` sees it, taken off the heap. */
  ghost predicate Snapshot(vs: Pointers, vertices: map<Id, Vertex>, states: States, outs: Outs) {
    && Named(vs) && vs.Keys == vertices.Keys == states.Keys == outs.Keys
    && (forall id :: id in vs ==> vertices[id] == Vertex(states[id], outs[id].Keys))
    && (forall id, to :: id in vs && to in outs[id] ==> to in vs && outs[id][to] == vs[to])
  }

  ghost predicate Unmoved(vs: Pointers, states: States, outs: Outs)
    reads vs.Values`state, vs.Values`edges
  {
    vs.Keys == states.Keys == outs.Keys
    && forall id :: id in vs ==> vs[id].state == states[id] && vs[id].edges == outs[id]
  }

  lemma SnapshotMeans(vs: Pointers, vertices: map<Id, Vertex>, states: States, outs: Outs)
    requires Snapshot(vs, vertices, states, outs)
    ensures Named(vs) && EdgesOf(vertices).Keys == vs.Keys && Ascending([], 0)
  {
  }

  lemma Holding(vs: Pointers, vertices: map<Id, Vertex>) returns (states: States, outs: Outs)
    requires Holds(vs, vertices)
    ensures Snapshot(vs, vertices, states, outs) && Unmoved(vs, states, outs)
  {
    states := map id | id in vs :: vs[id].state;
    outs := map id | id in vs :: vs[id].edges;
    forall id | id in vs ensures vertices[id] == Vertex(states[id], outs[id].Keys) && Leads(vs, vs[id]) {
      assert VertexOf(vs[id]) == vertices[id];
    }
  }

  /** Changing scratch fields changes neither links nor what the graph stores. */
  lemma StillHolding(vs: Pointers, vertices: map<Id, Vertex>, states: States, outs: Outs)
    requires Snapshot(vs, vertices, states, outs) && Unmoved(vs, states, outs)
    ensures Holds(vs, vertices)
  {
    forall id | id in vs ensures VertexOf(vs[id]) == vertices[id] && Leads(vs, vs[id]) {
    }
  }

  /** Clears the scratch fields of every vertex and starts the local one at distance zero. */
  method Reset(vs: Pointers, local: Vertice, ghost edges: Edges)
    requires Named(vs) && local.id in vs && vs[local.id] == local && edges.Keys == vs.Keys
    modifies vs.Values`nextHop, vs.Values`distance, vs.Values`visited
    ensures Labelled(vs, Fresh(edges, local.id))
  {
    var rest := vs.Keys;
    while rest != {}
      invariant rest <= vs.Keys
      invariant forall id :: id in vs && id !in rest ==> LabelOf(vs[id]) == Label(-1, None, false)
    {
      var id :| id in rest;
      var v := vs[id];
      v.nextHop, v.distance, v.visited := null, -1, false;
      rest := rest - {id};
    }
    local.nextHop, local.distance := null, 0;
  }

  /** The label of a vertex found through one labelled `x`. */
  function Through(x: Label, v: Id): Label {
    Label(x.distance + 1, if x.hop.Some? then x.hop else Some(v), false)
  }

  /** Gives `neighbor` a next hop and a distance through `node`. */
  method Improve(vs: Pointers, node: Vertice, neighbor: Vertice, ghost labels: Labelling)
    requires Named(vs) && Labelled(vs, labels) && !neighbor.visited
    requires node.id in vs && vs[node.id] == node && neighbor.id in vs && vs[neighbor.id] == neighbor
    modifies neighbor`nextHop, neighbor`distance
    ensures Labelled(vs, labels[neighbor.id := Through(labels[node.id], neighbor.id)])
  {
    var tentative := node.distance + 1;
    neighbor.nextHop := if node.nextHop != null then node.nextHop else neighbor;
    neighbor.distance := tentative;
  }

  /** What following one edge does, as values. */
  lemma RelaxStep(vs: Pointers, self: Id, edges: Edges, labels: Labelling, queue: Queue, now: Id, seen: set<Id>,
                  v: Vertice, queue': Queue)
    requires now in labels && Searching(self, edges, labels, labels[now].distance, now, seen) && v.id in edges[now]
    requires v.id in vs && vs[v.id] == v && Queued(vs, labels, queue, {now})
    requires Improves(labels, now, v.id) ==>
      && IsHeap(queue')
      && multiset(queue') == multiset(queue) + multiset{Entry(labels[now].distance + 1, v.address, v)}
    requires !Improves(labels, now, v.id) ==> queue' == queue
    ensures Queued(vs, Relaxed(labels, now, v.id), queue', {now})
    ensures Searching(self, edges, Relaxed(labels, now, v.id), labels[now].distance, now, seen + {v.id})
  {
    ImprovesOnlyOnce(self, edges, labels, labels[now].distance, now, seen, v.id);
    RelaxKeepsSearching(self, edges, labels, labels[now].distance, now, seen, v.id);
    if Improves(labels, now, v.id) {
      PushQueued(vs, labels, queue, {now}, Relaxed(labels, now, v.id), queue', v);
    }
  }

  /** While vertex `now` has its edges followed: the search, the queue under its top, and the pushes. */
  ghost predicate Visiting(vs: Pointers, self: Id, edges: Edges, labels: Labelling, queue: Queue, now: Id,
                           seen: set<Id>, pushes: Queue) {
    && now in labels && Searching(self, edges, labels, labels[now].distance, now, seen)
    && Queued(vs, labels, queue, {now})
    && queue != [] && queue[0].item.id == now
    && Pushes(vs, labels, pushes)
  }

  lemma VisitingPush(vs: Pointers, self: Id, edges: Edges, labels: Labelling, queue: Queue, now: Id, seen: set<Id>,
                     pushes: Queue, v: Vertice, queue': Queue)
    requires Visiting(vs, self, edges, labels, queue, now, seen, pushes) && v.id in edges[now]
    requires v.id in vs && vs[v.id] == v && Improves(labels, now, v.id)
    requires IsHeap(queue') && queue' != [] && queue'[0] == queue[0]
    requires multiset(queue') == multiset(queue) + multiset{Entry(labels[now].distance + 1, v.address, v)}
    ensures Visiting(vs, self, edges, Relaxed(labels, now, v.id), queue', now, seen + {v.id},
                     pushes + [Entry(labels[now].distance + 1, v.address, v)])
  {
    ImprovesOnlyOnce(self, edges, labels, labels[now].distance, now, seen, v.id);
    PushesMore(vs, labels, pushes, Entry(labels[now].distance + 1, v.address, v), Relaxed(labels, now, v.id));
    hide Pushes;
    RelaxStep(vs, self, edges, labels, queue, now, seen, v, queue');
    assert Relaxed(labels, now, v.id)[now] == labels[now];
  }

  lemma VisitingSame(vs: Pointers, self: Id, edges: Edges, labels: Labelling, queue: Queue, now: Id, seen: set<Id>,
                     pushes: Queue, v: Vertice)
    requires Visiting(vs, self, edges, labels, queue, now, seen, pushes) && v.id in edges[now]
    requires v.id in vs && vs[v.id] == v && !Improves(labels, now, v.id)
    ensures Visiting(vs, self, edges, labels, queue, now, seen + {v.id}, pushes)
  {
    RelaxStep(vs, self, edges, labels, queue, now, seen, v, queue);
  }

  /** What a search knows about the vertex being visited and the entry at the top. */
  lemma VisitingTop(vs: Pointers, self: Id, edges: Edges, labels: Labelling, queue: Queue, now: Id, seen: set<Id>,
                    pushes: Queue)
    requires Visiting(vs, self, edges, labels, queue, now, seen, pushes)
    ensures queue != [] && IsHeap(queue) && now in labels
    ensures queue[0].distance == labels[now].distance && labels[now].visited && queue[0].item.id == now
    ensures now in edges && edges[now] <= labels.Keys
  {
    assert Enters(vs, labels, queue[0]);
  }

  function Unvisited(labels: Labelling): set<Id> {
    set id | id in labels && !labels[id].visited
  }

  lemma RelaxedUnvisited(labels: Labelling, now: Id, v: Id)
    requires now in labels && v in labels
    ensures Unvisited(Relaxed(labels, now, v)) == Unvisited(labels)
  {
  }

  /**
   Follows one edge of the vertex at the top of the queue, by the intended test: the neighbour
   is relabelled and pushed, or nothing happens.
   */
  method Follow(vs: Pointers, queue: PriorityQueue<Vertice>, node: Vertice, neighbor: Vertice,
                ghost self: Id, ghost edges: Edges, ghost labels: Labelling, ghost seen: set<Id>)
    returns (ghost labels': Labelling)
    requires Named(vs) && Labelled(vs, labels) && node.id in vs && vs[node.id] == node && queue.Valid()
    requires neighbor.id in vs && vs[neighbor.id] == neighbor
    requires Visiting(vs, self, edges, labels, queue.heap, node.id, seen, queue.pushed)
    requires neighbor.id in edges[node.id]
    modifies neighbor`nextHop, neighbor`distance, queue
    ensures Labelled(vs, labels') && queue.Valid()
    ensures node.id in labels && neighbor.id in labels && labels' == Relaxed(labels, node.id, neighbor.id)
    ensures queue.pushed == old(queue.pushed) + if Improves(labels, node.id, neighbor.id)
                                                then [Entry(labels[node.id].distance + 1, neighbor.address, neighbor)]
                                                else []
    ensures Visiting(vs, self, edges, labels', queue.heap, node.id, seen + {neighbor.id}, queue.pushed)
    ensures queue.heap != [] && queue.heap[0] == old(queue.heap)[0] && queue.popped == old(queue.popped)
    ensures Unvisited(labels') == Unvisited(labels)
  {
    hide *;
    ghost var heap, pushed := queue.heap, queue.pushed;
    VisitingTop(vs, self, edges, labels, heap, node.id, seen, pushed);
    RelaxedUnvisited(labels, node.id, neighbor.id);
    LabelledMeans(vs, labels, node);
    LabelledMeans(vs, labels, neighbor);
    ImprovesMeans(labels, node.id, neighbor.id);
    labels' := Relaxed(labels, node.id, neighbor.id);
    if !neighbor.visited {
      var tentative := queue.heap[0].distance + 1;
      if neighbor.nextHop == null || tentative < neighbor.distance {
        Improve(vs, node, neighbor, labels);
        LabelledMeans(vs, labels', neighbor);
        NearerIsLess(heap[0], Entry(tentative, neighbor.address, neighbor));
        queue.Add(Entry(neighbor.distance, neighbor.address, neighbor));
        ValidIsHeap(queue);
        VisitingPush(vs, self, edges, labels, heap, node.id, seen, pushed, neighbor, queue.heap);
        return;
      }
    }
    VisitingSame(vs, self, edges, labels, heap, node.id, seen, pushed, neighbor);
    assert pushed + [] == pushed;
  }

  lemma ValidIsHeap(queue: PriorityQueue<Vertice>)
    requires queue.Valid()
    ensures IsHeap(queue.heap)
  {
  }

  lemma LabelledMeans(vs: Pointers, labels: Labelling, v: Vertice)
    requires Labelled(vs, labels) && v.id in vs && vs[v.id] == v
    ensures v.id in labels && labels[v.id].distance == v.distance && labels[v.id].visited == v.visited
    ensures labels[v.id].hop == if v.nextHop == null then None else Some(v.nextHop.id)
  {
    assert LabelOf(v) == labels[v.id];
  }

  lemma ImprovesMeans(labels: Labelling, now: Id, v: Id)
    requires now in labels && v in labels
    ensures Improves(labels, now, v) <==>
              !labels[v].visited && (labels[v].hop.None? || labels[now].distance + 1 < labels[v].distance)
    ensures Improves(labels, now, v) ==>
              && Relaxed(labels, now, v) == labels[v := Through(labels[now], v)]
              && Relaxed(labels, now, v)[v].distance == labels[now].distance + 1
    ensures !Improves(labels, now, v) ==> Relaxed(labels, now, v) == labels
  {
  }

  lemma LeadsMeans(vs: Pointers, v: Vertice)
    requires Named(vs) && Leads(vs, v)
    ensures forall to :: to in v.edges ==> to in vs && v.edges[to] == vs[to] && vs[to].id == to
  {
  }

  lemma MoveOne(seen: set<Id>, rest: set<Id>, id: Id)
    requires id in rest
    ensures (seen + {id}) + (rest - {id}) == seen + rest
  {
  }

  /** Follows every edge of the vertex at the top of the queue. */
  method Expand(vs: Pointers, queue: PriorityQueue<Vertice>, node: Vertice,
                ghost self: Id, ghost edges: Edges, ghost labels: Labelling)
    returns (ghost labels': Labelling)
    requires Named(vs) && Labelled(vs, labels) && node.id in vs && vs[node.id] == node && Leads(vs, node)
    requires queue.Valid() && Visiting(vs, self, edges, labels, queue.heap, node.id, {}, queue.pushed)
    requires edges[node.id] == node.edges.Keys
    modifies vs.Values`nextHop, vs.Values`distance, queue
    ensures Labelled(vs, labels') && queue.Valid()
    ensures Visiting(vs, self, edges, labels', queue.heap, node.id, edges[node.id], queue.pushed)
    ensures queue.heap != [] && queue.heap[0] == old(queue.heap)[0] && queue.popped == old(queue.popped)
    ensures Unvisited(labels') == Unvisited(labels)
  {
    hide *;
    VisitingTop(vs, self, edges, labels, queue.heap, node.id, {}, queue.pushed);
    labels' := labels;
    var out := node.edges;
    var rest := out.Keys;
    ghost var seen := {};
    LeadsMeans(vs, node);
    while rest != {}
      invariant seen + rest == out.Keys
      invariant Labelled(vs, labels') && queue.Valid()
      invariant Visiting(vs, self, edges, labels', queue.heap, node.id, seen, queue.pushed)
      invariant queue.heap != [] && queue.heap[0] == old(queue.heap)[0] && queue.popped == old(queue.popped)
      invariant Unvisited(labels') == Unvisited(labels)
    {
      var id :| id in rest;
      labels' := Follow(vs, queue, node, out[id], self, edges, labels', seen);
      MoveOne(seen, rest, id);
      rest, seen := rest - {id}, seen + {id};
    }
    assert seen + rest == seen;
  }

  /** Between two visits: the search, the queue, and the pushes. */
  ghost predicate Resting(vs: Pointers, self: Id, edges: Edges, labels: Labelling, d: int, queue: Queue,
                          pushes: Queue) {
    Between(self, edges, labels, d) && Queued(vs, labels, queue, {}) && Pushes(vs, labels, pushes)
  }

  function Marked(labels: Labelling, v: Id): Labelling
    requires v in labels
  {
    labels[v := labels[v].(visited := true)]
  }

  lemma StartVisiting(vs: Pointers, self: Id, edges: Edges, labels: Labelling, d: int, queue: Queue, pushes: Queue)
    requires Resting(vs, self, edges, labels, d, queue, pushes) && queue != []
    ensures var v := queue[0].item;
            && v.id in vs && vs[v.id] == v && v.id in labels && !labels[v.id].visited
            && d <= labels[v.id].distance == queue[0].distance
            && Visiting(vs, self, edges, Marked(labels, v.id), queue, v.id, {}, pushes)
            && Unvisited(Marked(labels, v.id)) < Unvisited(labels)
  {
    var v := queue[0].item.id;
    assert v in labels && !labels[v].visited ==> v in Unvisited(labels) && v !in Unvisited(Marked(labels, v));
    TopIsFront(vs, labels, queue);
    assert Enters(vs, labels, queue[0]);
    VisitStarts(self, edges, labels, d, v);
    PushesMarked(vs, labels, pushes, v);
    VisitQueued(vs, labels, queue, v);
  }

  lemma StopVisiting(vs: Pointers, self: Id, edges: Edges, labels: Labelling, queue: Queue, v: Id,
                     pushes: Queue, queue': Queue)
    requires v in edges && Visiting(vs, self, edges, labels, queue, v, edges[v], pushes)
    requires IsHeap(queue') && multiset(queue') == multiset(queue) - multiset{queue[0]}
    ensures Resting(vs, self, edges, labels, labels[v].distance, queue', pushes)
  {
    VisitEnds(self, edges, labels, labels[v].distance, v);
    PopQueued(vs, labels, queue, queue', v);
  }

  /** Marks a vertex as visited. */
  method Mark(vs: Pointers, node: Vertice, ghost labels: Labelling)
    requires Named(vs) && Labelled(vs, labels) && node.id in vs && vs[node.id] == node
    modifies node`visited
    ensures Labelled(vs, Marked(labels, node.id))
  {
    assert LabelOf(node) == labels[node.id];
    node.visited := true;
  }

  /** Removes the vertex whose edges have all been followed. */
  method Retire(vs: Pointers, queue: PriorityQueue<Vertice>, ghost self: Id, ghost edges: Edges,
                ghost labels: Labelling)
    requires queue.Valid() && queue.heap != [] && queue.heap[0].item.id in edges
    requires Visiting(vs, self, edges, labels, queue.heap, queue.heap[0].item.id, edges[queue.heap[0].item.id],
                      queue.pushed)
    modifies queue
    ensures queue.Valid() && queue.popped == old(queue.popped) + [old(queue.heap)[0]]
    ensures Resting(vs, self, edges, labels, old(queue.heap)[0].distance, queue.heap, queue.pushed)
  {
    hide *;
    ghost var heap, v := queue.heap, queue.heap[0].item.id;
    VisitingTop(vs, self, edges, labels, heap, v, edges[v], queue.pushed);
    queue.Remove();
    ValidIsHeap(queue);
    StopVisiting(vs, self, edges, labels, heap, v, queue.pushed, queue.heap);
  }

  /** One round of the main loop: the top is visited, its edges followed, and the top removed. */
  method VisitTop(vs: Pointers, queue: PriorityQueue<Vertice>,
                  ghost self: Id, ghost edges: Edges, ghost labels: Labelling, ghost d: int)
    returns (ghost labels': Labelling)
    requires queue.Valid() && queue.heap != []
    requires Named(vs) && Labelled(vs, labels) && Resting(vs, self, edges, labels, d, queue.heap, queue.pushed)
    requires Leads(vs, queue.heap[0].item) && queue.heap[0].item.id in edges
             && edges[queue.heap[0].item.id] == queue.heap[0].item.edges.Keys
    modifies vs.Values`nextHop, vs.Values`distance, vs.Values`visited, queue
    ensures Labelled(vs, labels') && d <= old(queue.heap)[0].distance && queue.Valid()
    ensures Resting(vs, self, edges, labels', old(queue.heap)[0].distance, queue.heap, queue.pushed)
    ensures queue.popped == old(queue.popped) + [old(queue.heap)[0]]
    ensures Unvisited(labels') < Unvisited(labels)
  {
    hide *;
    var node := queue.heap[0].item;
    StartVisiting(vs, self, edges, labels, d, queue.heap, queue.pushed);
    Mark(vs, node, labels);
    labels' := Expand(vs, queue, node, self, edges, Marked(labels, node.id));
    Retire(vs, queue, self, edges, labels');
  }

  ghost predicate Exact(vs: Pointers, self: Id, edges: Edges)
    reads vs.Values`distance
  {
    forall id :: id in vs ==> IsDistance(edges, self, id, vs[id].distance)
  }

  lemma ReadOff(vs: Pointers, self: Id, edges: Edges, labels: Labelling)
    requires Labelled(vs, labels)
    requires forall id :: id in labels ==> IsDistance(edges, self, id, labels[id].distance)
    ensures Exact(vs, self, edges)
  {
    forall id | id in vs ensures IsDistance(edges, self, id, vs[id].distance) {
      assert LabelOf(vs[id]) == labels[id];
    }
  }

  /** The table read off the scratch fields. */
  method CollectTable(vs: Pointers, ghost labels: Labelling) returns (table: Table)
    requires Labelled(vs, labels)
    ensures table == TableOf(labels)
  {
    table := map[];
    var rest := vs.Keys;
    while rest != {}
      invariant rest <= vs.Keys && table.Keys <= vs.Keys - rest
      invariant forall id :: id in vs && id !in rest ==> (id in table <==> labels[id].hop.Some?)
      invariant forall id :: id in table ==> labels[id].hop == Some(table[id])
    {
      var id :| id in rest;
      assert LabelOf(vs[id]) == labels[id];
      if vs[id].nextHop != null {
        table := table[id := vs[id].nextHop.id];
      }
      rest := rest - {id};
    }
  }

  lemma Started(vs: Pointers, edges: Edges, local: Vertice, queue: Queue)
    requires Graph(local.id, edges) && edges.Keys == vs.Keys && vs[local.id] == local
    requires queue == [Entry(0, local.address, local)]
    ensures Resting(vs, local.id, edges, Fresh(edges, local.id), 0, queue, queue)
  {
    FreshIsBetween(local.id, edges);
    assert queue[0] in queue && multiset(queue) == multiset{queue[0]};
    assert HasEntry(queue, local.id);
  }

  lemma Finished(vs: Pointers, self: Id, edges: Edges, labels: Labelling, d: int, queue: Queue, pushes: Queue)
    requires Resting(vs, self, edges, labels, d, queue, pushes) && queue == []
    ensures AllVisited(labels) && IsShortestTable(self, edges, TableOf(labels)) && Pushes(vs, labels, pushes)
    ensures forall id :: id in labels ==> IsDistance(edges, self, id, labels[id].distance)
  {
    forall id | id in labels && labels[id].distance >= 0 ensures labels[id].visited {
      assert !labels[id].visited ==> HasEntry(queue, id);
    }
    DoneGivesTable(self, edges, labels, d);
    forall id | id in labels ensures IsDistance(edges, self, id, labels[id].distance) {
      DoneIsShortest(self, edges, labels, d, id);
    }
  }

  /** One entry on a new queue. */
  method QueueWith(first: Entry<Vertice>) returns (queue: PriorityQueue<Vertice>)
    ensures fresh(queue) && queue.Valid() && queue.heap == queue.pushed == [first] && queue.popped == []
  {
    queue := new PriorityQueue<Vertice>();
    queue.Add(first);
    assert |multiset(queue.heap)| == 1 && queue.heap[0] in multiset(queue.heap);
  }

  /** Clears the scratch fields and queues the local vertex. */
  method Begin(vs: Pointers, local: Vertice, ghost edges: Edges) returns (queue: PriorityQueue<Vertice>)
    requires Named(vs) && local.id in vs && vs[local.id] == local && edges.Keys == vs.Keys && Graph(local.id, edges)
    modifies vs.Values`nextHop, vs.Values`distance, vs.Values`visited
    ensures fresh(queue) && queue.Valid() && Labelled(vs, Fresh(edges, local.id)) && queue.popped == []
    ensures Resting(vs, local.id, edges, Fresh(edges, local.id), 0, queue.heap, queue.pushed)
  {
    Reset(vs, local, edges);
    assert LabelOf(local) == Fresh(edges, local.id)[local.id];
    hide *;
    queue := QueueWith(Entry(local.distance, local.address, local));
    Started(vs, edges, local, queue.heap);
  }

  /** What holds whenever the main loop tests the queue. */
  ghost predicate Running(vs: Pointers, self: Id, vertices: map<Id, Vertex>, states: States, outs: Outs,
                          labels: Labelling, d: int, queue: Queue, pushed: Queue, popped: Queue)
    reads vs.Values
  {
    && Snapshot(vs, vertices, states, outs) && Unmoved(vs, states, outs) && Labelled(vs, labels)
    && Resting(vs, self, EdgesOf(vertices), labels, d, queue, pushed) && Ascending(popped, d)
  }

  lemma RunningMeans(vs: Pointers, self: Id, vertices: map<Id, Vertex>, states: States, outs: Outs,
                     labels: Labelling, d: int, queue: Queue, pushed: Queue, popped: Queue)
    ensures Running(vs, self, vertices, states, outs, labels, d, queue, pushed, popped) <==>
              && Snapshot(vs, vertices, states, outs) && Unmoved(vs, states, outs) && Labelled(vs, labels)
              && Resting(vs, self, EdgesOf(vertices), labels, d, queue, pushed) && Ascending(popped, d)
  {
  }

  method Round(vs: Pointers, queue: PriorityQueue<Vertice>, ghost self: Id, ghost vertices: map<Id, Vertex>,
               ghost states: States, ghost outs: Outs, ghost labels: Labelling, ghost d: int)
    returns (ghost labels': Labelling, ghost d': int)
    requires queue.Valid() && queue.heap != []
    requires Running(vs, self, vertices, states, outs, labels, d, queue.heap, queue.pushed, queue.popped)
    modifies vs.Values`nextHop, vs.Values`distance, vs.Values`visited, queue
    ensures queue.Valid()
    ensures Running(vs, self, vertices, states, outs, labels', d', queue.heap, queue.pushed, queue.popped)
    ensures Unvisited(labels') < Unvisited(labels)
  {
    hide *;
    RunningMeans(vs, self, vertices, states, outs, labels, d, queue.heap, queue.pushed, queue.popped);
    TopHolds(vs, vertices, states, outs, self, labels, d, queue.heap, queue.pushed);
    d' := queue.heap[0].distance;
    ghost var top, popped := queue.heap[0], queue.popped;
    labels' := VisitTop(vs, queue, self, EdgesOf(vertices), labels, d);
    Append(popped, d, top);
    RunningMeans(vs, self, vertices, states, outs, labels', d', queue.heap, queue.pushed, queue.popped);
  }

  /** The main loop. */
  method Search(vs: Pointers, queue: PriorityQueue<Vertice>, ghost self: Id, ghost vertices: map<Id, Vertex>,
                ghost states: States, ghost outs: Outs, ghost start: Labelling)
    returns (ghost labels: Labelling, ghost d: int)
    requires queue.Valid()
    requires Running(vs, self, vertices, states, outs, start, 0, queue.heap, queue.pushed, queue.popped)
    modifies vs.Values`nextHop, vs.Values`distance, vs.Values`visited, queue
    ensures queue.Valid() && queue.heap == []
    ensures Running(vs, self, vertices, states, outs, labels, d, queue.heap, queue.pushed, queue.popped)
  {
    labels, d := start, 0;
    hide *;
    while queue.heap != []
      invariant queue.Valid()
      invariant Running(vs, self, vertices, states, outs, labels, d, queue.heap, queue.pushed, queue.popped)
      decreases Unvisited(labels)
    {
      labels, d := Round(vs, queue, self, vertices, states, outs, labels, d);
    }
  }

  /** Reads the result off the scratch fields once no vertex waits. */
  method Finish(vs: Pointers, queue: PriorityQueue<Vertice>, ghost self: Id, ghost edges: Edges,
                ghost labels: Labelling, ghost d: int)
    returns (table: Table)
    requires queue.Valid() && queue.heap == [] && Ascending(queue.popped, d)
    requires Labelled(vs, labels) && Resting(vs, self, edges, labels, d, queue.heap, queue.pushed)
    ensures IsShortestTable(self, edges, table) && Exact(vs, self, edges) && Disciplined(vs, queue)
  {
    hide *;
    Finished(vs, self, edges, labels, d, queue.heap, queue.pushed);
    ReadOff(vs, self, edges, labels);
    EndsDisciplined(vs, labels, queue, d);
    table := CollectTable(vs, labels);
  }

  /**
   The next-hop computation with the test its comments suggest: a neighbour is taken over
   when it has no next hop yet or gets nearer.
   */
  method ComputeShortest(vs: Pointers, local: Vertice, ghost vertices: map<Id, Vertex>)
    returns (table: Table, ghost queue: PriorityQueue<Vertice>)
    requires Holds(vs, vertices) && local.id in vs && vs[local.id] == local && Graph(local.id, EdgesOf(vertices))
    modifies vs.Values`nextHop, vs.Values`distance, vs.Values`visited
    ensures Holds(vs, vertices)
    ensures IsShortestTable(local.id, EdgesOf(vertices), table)
    ensures Exact(vs, local.id, EdgesOf(vertices))
    ensures Disciplined(vs, queue)
  {
    hide *;
    ghost var states, outs := Holding(vs, vertices);
    SnapshotMeans(vs, vertices, states, outs);
    var q := Begin(vs, local, EdgesOf(vertices));
    queue := q;
    ghost var labels, d := Fresh(EdgesOf(vertices), local.id), 0;
    RunningMeans(vs, local.id, vertices, states, outs, labels, 0, q.heap, q.pushed, q.popped);
    labels, d := Search(vs, q, local.id, vertices, states, outs, labels);
    RunningMeans(vs, local.id, vertices, states, outs, labels, d, q.heap, q.pushed, q.popped);
    table := Finish(vs, q, local.id, EdgesOf(vertices), labels, d);
    StillHolding(vs, vertices, states, outs);
  }

  /** The vertex at the top has the edges the graph stores for it. */
  lemma TopHolds(vs: Pointers, vertices: map<Id, Vertex>, states: States, outs: Outs,
                 self: Id, labels: Labelling, d: int, queue: Queue, pushes: Queue)
    requires Snapshot(vs, vertices, states, outs) && Unmoved(vs, states, outs)
    requires Resting(vs, self, EdgesOf(vertices), labels, d, queue, pushes) && queue != []
    ensures Named(vs) && Leads(vs, queue[0].item) && queue[0].item.id in EdgesOf(vertices)
    ensures EdgesOf(vertices)[queue[0].item.id] == queue[0].item.edges.Keys
  {
    assert Enters(vs, labels, queue[0]);
  }
}
