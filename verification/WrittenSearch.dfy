/**
 The next-hop computation exactly as the code has it: the test looks for a next hop at the
 vertex being visited, not at the neighbour.  Only the neighbours of the local vertex are
 ever found.
 */
module WrittenSearch {
  import opened Common
  import opened LinkState
  import opened Paths
  import opened Labels
  import opened BinaryHeap
  import opened Vertices
  import CachedTable

  /** The test as written. */
  predicate Replaces(labels: Labelling, now: Id, v: Id)
    requires now in labels && v in labels
  {
    !labels[v].visited && (labels[now].hop.None? || labels[now].distance + 1 < labels[v].distance)
  }

  function Replaced(labels: Labelling, now: Id, v: Id): Labelling
    requires now in labels && v in labels
  {
    if Replaces(labels, now, v) then labels[v := Through(labels[now], v)] else labels
  }

  /** The vertices in `found` are their own next hops at distance one; no other vertex but the local one is found. */
  ghost predicate OneHop(self: Id, edges: Edges, labels: Labelling, found: set<Id>) {
    && Graph(self, edges) && labels.Keys == edges.Keys
    && labels[self].distance == 0 && labels[self].hop == None
    && forall v :: v in labels && v != self ==>
         && (if v in found then labels[v].distance == 1 && labels[v].hop == Some(v)
             else labels[v].distance == -1 && labels[v].hop == None && !labels[v].visited)
  }

  /** The local vertex is visited first, while no other is; later its edges have all been followed. */
  ghost predicate Phase(self: Id, edges: Edges, labels: Labelling, now: Id, found: set<Id>) {
    && now in labels && now in edges && self in labels && self in edges && labels[now].visited
    && if now == self then forall v :: v in labels && v != self ==> !labels[v].visited
       else labels[self].visited && now in found && found == edges[self]
  }

  lemma ReplacedStep(self: Id, edges: Edges, labels: Labelling, now: Id, found: set<Id>, v: Id)
    requires OneHop(self, edges, labels, found) && Phase(self, edges, labels, now, found) && v in edges[now]
    requires now == self ==> v !in found
    ensures Replaces(labels, now, v) <==> now == self && v != self
    ensures var found' := if now == self then found + {v} else found;
            && OneHop(self, edges, Replaced(labels, now, v), found')
            && Phase(self, edges, Replaced(labels, now, v), now, found')
  {
    assert v in labels;
  }

  /** Every entry names a found vertex. */
  ghost predicate AllEnter(vs: Pointers, labels: Labelling, queue: Queue) {
    IsHeap(queue) && forall i :: 0 <= i < |queue| ==> Enters(vs, labels, queue[i])
  }

  lemma PushEnters(vs: Pointers, labels: Labelling, queue: Queue, queue': Queue, now: Id, v: Vertice)
    requires AllEnter(vs, labels, queue) && IsHeap(queue') && now in labels && labels[now].distance >= 0
    requires v.id in vs && vs[v.id] == v && v.id in labels && labels[v.id].distance < 0
    requires multiset(queue') == multiset(queue) + multiset{Entry(labels[now].distance + 1, v.address, v)}
    ensures AllEnter(vs, labels[v.id := Through(labels[now], v.id)], queue')
  {
    var x := Entry(labels[now].distance + 1, v.address, v);
    forall i | 0 <= i < |queue'| ensures Enters(vs, labels[v.id := Through(labels[now], v.id)], queue'[i]) {
      assert queue'[i] in multiset(queue');
      if queue'[i] != x {
        assert queue'[i] in queue;
        assert Enters(vs, labels, queue'[i]);
      }
    }
  }

  lemma PopEnters(vs: Pointers, labels: Labelling, queue: Queue, queue': Queue)
    requires AllEnter(vs, labels, queue) && IsHeap(queue') && queue != []
    requires multiset(queue') == multiset(queue) - multiset{queue[0]}
    ensures AllEnter(vs, labels, queue') && |queue'| == |queue| - 1
  {
    assert queue[0] in queue;
    assert |multiset(queue')| == |multiset(queue)| - 1;
    forall i | 0 <= i < |queue'| ensures queue'[i] in queue {
      assert queue'[i] in multiset(queue');
    }
  }

  /** While a vertex has its edges followed. */
  ghost predicate Following(vs: Pointers, self: Id, edges: Edges, labels: Labelling, queue: Queue, now: Id,
                            found: set<Id>) {
    && OneHop(self, edges, labels, found) && Phase(self, edges, labels, now, found)
    && AllEnter(vs, labels, queue) && queue != [] && queue[0].item.id == now
  }

  lemma FollowingPush(vs: Pointers, self: Id, edges: Edges, labels: Labelling, queue: Queue, now: Id, found: set<Id>,
                      v: Vertice, queue': Queue)
    requires Following(vs, self, edges, labels, queue, now, found) && v.id in edges[now] && v.id !in found
    requires now == self && v.id != self && v.id in vs && vs[v.id] == v
    requires IsHeap(queue') && queue' != [] && queue'[0] == queue[0]
    requires multiset(queue') == multiset(queue) + multiset{Entry(labels[now].distance + 1, v.address, v)}
    ensures Following(vs, self, edges, Replaced(labels, now, v.id), queue', now, found + {v.id})
  {
    ReplacedStep(self, edges, labels, now, found, v.id);
    PushEnters(vs, labels, queue, queue', now, v);
  }

  lemma FollowingSame(vs: Pointers, self: Id, edges: Edges, labels: Labelling, queue: Queue, now: Id, found: set<Id>,
                      v: Id)
    requires Following(vs, self, edges, labels, queue, now, found) && v in edges[now]
    requires now == self ==> v == self && v !in found
    ensures Following(vs, self, edges, labels, queue, now, if now == self then found + {v} else found)
  {
    ReplacedStep(self, edges, labels, now, found, v);
  }

  lemma FollowingMeans(vs: Pointers, self: Id, edges: Edges, labels: Labelling, queue: Queue, now: Id, found: set<Id>)
    requires Following(vs, self, edges, labels, queue, now, found)
    ensures IsHeap(queue) && queue != [] && queue[0].item.id == now && now in labels && now in edges
    ensures 0 <= queue[0].distance == labels[now].distance && edges[now] <= labels.Keys && self in edges
    ensures forall v :: v in edges[now] && (now == self ==> v !in found) ==>
              (Replaces(labels, now, v) <==> now == self && v != self)
    ensures now != self ==> found == edges[self]
    ensures forall v :: v in edges[now] && v != self && v !in found ==> labels[v].distance < 0
  {
    assert Enters(vs, labels, queue[0]);
  }

  // ----- what is put on the queue, and what is taken off -----

  /** No entry but the one at the top is the local vertex. */
  ghost predicate OthersBehind(self: Id, queue: Queue) {
    queue != [] && forall x :: x in multiset(queue) - multiset{queue[0]} ==> x.item.id != self
  }

  /** What the main loop finds: after its first turn, only entries at distance one. */
  ghost predicate Orderly(vs: Pointers, self: Id, labels: Labelling, queue: Queue, pushed: Queue, popped: Queue) {
    && self in labels && Pushes(vs, labels, pushed)
    && if labels[self].visited then Ascending(popped, 1) && forall x :: x in multiset(queue) ==> x.item.id != self
       else popped == []
  }

  lemma StillBehind(self: Id, queue: Queue, x: Entry<Vertice>, queue': Queue)
    requires OthersBehind(self, queue) && x.item.id != self
    requires queue' != [] && queue'[0] == queue[0] && multiset(queue') == multiset(queue) + multiset{x}
    ensures OthersBehind(self, queue')
  {
    assert queue[0] in multiset(queue);
    assert multiset(queue') - multiset{queue[0]} == (multiset(queue) - multiset{queue[0]}) + multiset{x};
  }

  /** The state of the queue when a vertex begins to have its edges followed. */
  lemma OrderlyVisits(vs: Pointers, self: Id, edges: Edges, labels: Labelling, queue: Queue,
                      pushed: Queue, popped: Queue)
    requires Orderly(vs, self, labels, queue, pushed, popped) && Paused(vs, self, edges, labels, queue)
    requires queue != []
    ensures OthersBehind(self, queue) && Ascending(popped + [queue[0]], 1)
    ensures queue[0].item.id in labels && Pushes(vs, Marked(labels, queue[0].item.id), pushed)
  {
    var top := queue[0];
    assert Enters(vs, labels, top);
    PushesMarked(vs, labels, pushed, top.item.id);
    hide Pushes;
    if labels[self].visited {
      assert top in multiset(queue) && labels[top.item.id].distance <= 1;
    } else {
      assert queue == [top];
    }
  }

  lemma OrderlyStarts(vs: Pointers, edges: Edges, local: Vertice, queue: Queue)
    requires local.id in edges && edges.Keys == vs.Keys && vs[local.id] == local
    requires queue == [Entry(0, local.address, local)]
    ensures Orderly(vs, local.id, Fresh(edges, local.id), queue, queue, [])
  {
    assert queue[0] in queue;
    assert HasEntry(queue, local.id);
  }

  lemma OrderlyMeans(vs: Pointers, self: Id, labels: Labelling, queue: Queue, pushed: Queue, popped: Queue)
    requires Orderly(vs, self, labels, queue, pushed, popped)
    ensures Pushes(vs, labels, pushed) && Ascending(popped, 1)
  {
  }

  /** An entry is taken off after the local vertex was visited. */
  lemma OrderlySkips(vs: Pointers, self: Id, labels: Labelling, queue: Queue, queue': Queue,
                     pushed: Queue, popped: Queue)
    requires Orderly(vs, self, labels, queue, pushed, popped) && labels[self].visited
    requires queue != [] && multiset(queue') == multiset(queue) - multiset{queue[0]}
    requires Ascending(popped + [queue[0]], 1)
    ensures Orderly(vs, self, labels, queue', pushed, popped + [queue[0]])
  {
  }

  /** After the top entry is taken off, the local vertex is no longer queued. */
  lemma OrderlyAgain(vs: Pointers, self: Id, labels: Labelling, queue: Queue, queue': Queue,
                     pushed: Queue, popped: Queue)
    requires self in labels && labels[self].visited
    requires Pushes(vs, labels, pushed) && Ascending(popped, 1) && OthersBehind(self, queue)
    requires multiset(queue') == multiset(queue) - multiset{queue[0]}
    ensures Orderly(vs, self, labels, queue', pushed, popped)
  {
  }

  /** Follows one edge by the test as written. */
  method FollowWritten(vs: Pointers, queue: PriorityQueue<Vertice>, node: Vertice, neighbor: Vertice,
                       ghost self: Id, ghost edges: Edges, ghost labels: Labelling, ghost found: set<Id>)
    returns (ghost labels': Labelling)
    requires Named(vs) && Labelled(vs, labels) && node.id in vs && vs[node.id] == node && queue.Valid()
    requires neighbor.id in vs && vs[neighbor.id] == neighbor
    requires Following(vs, self, edges, labels, queue.heap, node.id, found) && node.id in edges
             && neighbor.id in edges[node.id]
    requires node.id == self ==> neighbor.id !in found
    requires Pushes(vs, labels, queue.pushed) && OthersBehind(self, queue.heap)
    modifies neighbor`nextHop, neighbor`distance, queue
    ensures Labelled(vs, labels') && queue.Valid()
    ensures Following(vs, self, edges, labels', queue.heap, node.id,
                      if node.id == self then found + {neighbor.id} else found)
    ensures Pushes(vs, labels', queue.pushed) && OthersBehind(self, queue.heap)
    ensures queue.heap != [] && queue.heap[0] == old(queue.heap)[0] && queue.popped == old(queue.popped)
    ensures node.id in labels && neighbor.id in labels && labels' == Replaced(labels, node.id, neighbor.id)
    ensures queue.pushed == old(queue.pushed) + if Replaces(labels, node.id, neighbor.id)
                                                then [Entry(labels[node.id].distance + 1, neighbor.address, neighbor)]
                                                else []
  {
    hide *;
    ghost var heap, pushed := queue.heap, queue.pushed;
    FollowingMeans(vs, self, edges, labels, heap, node.id, found);
    LabelledMeans(vs, labels, node);
    LabelledMeans(vs, labels, neighbor);
    ReplacesMeans(labels, node.id, neighbor.id);
    labels' := Replaced(labels, node.id, neighbor.id);
    var tentative := queue.heap[0].distance + 1;
    if !neighbor.visited && (node.nextHop == null || tentative < neighbor.distance) {
      Improve(vs, node, neighbor, labels);
      LabelledMeans(vs, labels', neighbor);
      ghost var x := Entry(neighbor.distance, neighbor.address, neighbor);
      NearerIsLess(heap[0], x);
      queue.Add(Entry(neighbor.distance, neighbor.address, neighbor));
      ValidIsHeap(queue);
      FollowingPush(vs, self, edges, labels, heap, node.id, found, neighbor, queue.heap);
      PushesMore(vs, labels, pushed, x, labels');
      StillBehind(self, heap, x, queue.heap);
    } else {
      FollowingSame(vs, self, edges, labels, heap, node.id, found, neighbor.id);
      assert pushed + [] == pushed;
    }
  }

  lemma ReplacesMeans(labels: Labelling, now: Id, v: Id)
    requires now in labels && v in labels
    ensures Replaces(labels, now, v) <==>
              !labels[v].visited && (labels[now].hop.None? || labels[now].distance + 1 < labels[v].distance)
    ensures Replaces(labels, now, v) ==>
              && Replaced(labels, now, v) == labels[v := Through(labels[now], v)]
              && Replaced(labels, now, v)[v].distance == labels[now].distance + 1
    ensures !Replaces(labels, now, v) ==> Replaced(labels, now, v) == labels
  {
  }

  /** Follows every edge of the vertex at the top of the queue. */
  method ExpandWritten(vs: Pointers, queue: PriorityQueue<Vertice>, node: Vertice,
                       ghost self: Id, ghost edges: Edges, ghost labels: Labelling, ghost found: set<Id>)
    returns (ghost labels': Labelling)
    requires Named(vs) && Labelled(vs, labels) && node.id in vs && vs[node.id] == node && Leads(vs, node)
    requires queue.Valid() && Following(vs, self, edges, labels, queue.heap, node.id, found) && node.id in edges
    requires edges[node.id] == node.edges.Keys && (node.id == self ==> found == {})
    requires Pushes(vs, labels, queue.pushed) && OthersBehind(self, queue.heap)
    modifies vs.Values`nextHop, vs.Values`distance, queue
    ensures Labelled(vs, labels') && queue.Valid()
    ensures Following(vs, self, edges, labels', queue.heap, node.id, if node.id == self then edges[self] else found)
    ensures Pushes(vs, labels', queue.pushed) && OthersBehind(self, queue.heap)
    ensures queue.heap != [] && queue.heap[0] == old(queue.heap)[0] && queue.popped == old(queue.popped)
    ensures node.id != self ==> multiset(queue.heap) == multiset(old(queue.heap))
  {
    hide *;
    FollowingMeans(vs, self, edges, labels, queue.heap, node.id, found);
    LeadsMeans(vs, node);
    labels' := labels;
    ghost var pushed, popped, heap := queue.pushed, queue.popped, queue.heap;
    LogsMatch(queue);
    var out := node.edges;
    var rest := out.Keys;
    ghost var seen := {};
    while rest != {}
      invariant seen + rest == out.Keys && seen !! rest
      invariant Labelled(vs, labels') && queue.Valid()
      invariant Following(vs, self, edges, labels', queue.heap, node.id, if node.id == self then seen else found)
      invariant Pushes(vs, labels', queue.pushed) && OthersBehind(self, queue.heap)
      invariant queue.heap != [] && queue.heap[0] == old(queue.heap)[0] && queue.popped == old(queue.popped)
      invariant node.id != self ==> queue.pushed == old(queue.pushed)
    {
      var id :| id in rest;
      FollowingMeans(vs, self, edges, labels', queue.heap, node.id, if node.id == self then seen else found);
      labels' := FollowWritten(vs, queue, node, out[id], self, edges, labels', if node.id == self then seen else found);
      MoveOne(seen, rest, id);
      rest, seen := rest - {id}, seen + {id};
    }
    SameContents(queue, pushed, popped, heap);
    assert seen + rest == seen;
  }

  /** Nothing pushed and nothing popped: the same entries wait. */
  lemma SameContents(queue: PriorityQueue<Vertice>, pushed: Queue, popped: Queue, heap: Queue)
    requires queue.Valid() && multiset(pushed) == multiset(heap) + multiset(popped) && queue.popped == popped
    ensures queue.pushed == pushed ==> multiset(queue.heap) == multiset(heap)
  {
    if queue.pushed == pushed {
      forall e ensures multiset(queue.heap)[e] == multiset(heap)[e] {
        assert (multiset(queue.heap) + multiset(popped))[e] == (multiset(heap) + multiset(popped))[e];
      }
    }
  }

  lemma LogsMatch(queue: PriorityQueue<Vertice>)
    requires queue.Valid()
    ensures multiset(queue.pushed) == multiset(queue.heap) + multiset(queue.popped)
  {
  }

  /**
   Whenever the main loop tests the queue: either nothing has happened yet, or the local
   vertex's neighbours have all been found and nothing more will be.
   */
  ghost predicate Paused(vs: Pointers, self: Id, edges: Edges, labels: Labelling, queue: Queue) {
    && AllEnter(vs, labels, queue) && self in labels && self in edges
    && if labels[self].visited then OneHop(self, edges, labels, edges[self])
       else OneHop(self, edges, labels, {}) && labels == Fresh(edges, self) && |queue| == 1 && queue[0].item.id == self
  }

  lemma PausedStarts(vs: Pointers, edges: Edges, local: Vertice, queue: Queue)
    requires Graph(local.id, edges) && edges.Keys == vs.Keys && vs[local.id] == local
    requires queue == [Entry(0, local.address, local)]
    ensures Paused(vs, local.id, edges, Fresh(edges, local.id), queue)
  {
  }

  /** Which vertices count as found before the vertex at the top is visited. */
  function FoundBy(self: Id, edges: Edges, now: Id): set<Id>
    requires self in edges
  {
    if now == self then {} else edges[self]
  }

  lemma PausedVisits(vs: Pointers, self: Id, edges: Edges, labels: Labelling, queue: Queue)
    requires Paused(vs, self, edges, labels, queue) && queue != []
    ensures var v := queue[0].item;
            && v.id in vs && vs[v.id] == v && v.id in labels && v.id in edges && self in edges && self in labels
            && labels[v.id].distance == queue[0].distance
            && (!labels[v.id].visited ==>
                  Following(vs, self, edges, Marked(labels, v.id), queue, v.id, FoundBy(self, edges, v.id)))
            && (labels[v.id].visited ==> labels[self].visited)
            && (!labels[v.id].visited && v.id != self ==> labels[self].visited)
            && (v.id == self || !labels[self].visited ==> (labels[v.id].visited <==> labels[self].visited))
  {
    assert Enters(vs, labels, queue[0]);
    var v := queue[0].item.id;
    if !labels[v].visited {
      forall i | 0 <= i < |queue| ensures Enters(vs, Marked(labels, v), queue[i]) {
        assert Enters(vs, labels, queue[i]);
      }
    }
  }

  lemma PausedAgain(vs: Pointers, self: Id, edges: Edges, labels: Labelling, queue: Queue, now: Id, queue': Queue)
    requires self in edges && Following(vs, self, edges, labels, queue, now, edges[self])
    requires IsHeap(queue') && multiset(queue') == multiset(queue) - multiset{queue[0]}
    ensures Paused(vs, self, edges, labels, queue') && self in labels && labels[self].visited && |queue'| == |queue| - 1
  {
    PopEnters(vs, labels, queue, queue');
  }

  lemma PausedSkips(vs: Pointers, self: Id, edges: Edges, labels: Labelling, queue: Queue, queue': Queue)
    requires Paused(vs, self, edges, labels, queue) && queue != [] && labels[self].visited
    requires IsHeap(queue') && multiset(queue') == multiset(queue) - multiset{queue[0]}
    ensures Paused(vs, self, edges, labels, queue') && |queue'| == |queue| - 1
  {
    PopEnters(vs, labels, queue, queue');
  }

  lemma DoneIsDirect(vs: Pointers, self: Id, edges: Edges, labels: Labelling)
    requires Paused(vs, self, edges, labels, [])
    ensures self in edges && TableOf(labels) == CachedTable.Direct(self, edges)
    ensures forall v :: v in labels ==>
              labels[v].distance == if v == self then 0 else if v in edges[self] then 1 else -1
  {
  }

  /** The local vertex ends at distance 0, the ends of its edges at 1, and no other is reached. */
  ghost predicate OneHopDistances(vs: Pointers, self: Id, edges: Edges)
    reads vs.Values`distance
  {
    self in edges
    && forall id :: id in vs ==> vs[id].distance == if id == self then 0 else if id in edges[self] then 1 else -1
  }

  lemma ReadOffOneHop(vs: Pointers, self: Id, edges: Edges, labels: Labelling)
    requires Labelled(vs, labels) && self in edges
    requires forall v :: v in labels ==>
               labels[v].distance == if v == self then 0 else if v in edges[self] then 1 else -1
    ensures OneHopDistances(vs, self, edges)
  {
    forall id | id in vs
      ensures vs[id].distance == if id == self then 0 else if id in edges[self] then 1 else -1
    {
      assert LabelOf(vs[id]) == labels[id];
    }
  }

  /** Every queued distance is that of the vertex being visited, or one more, here too. */
  lemma WrittenQueueSpansTwoLayers(vs: Pointers, self: Id, edges: Edges, labels: Labelling, queue: Queue, now: Id,
                                   found: set<Id>, i: nat)
    requires Following(vs, self, edges, labels, queue, now, found) && OthersBehind(self, queue) && i < |queue|
    ensures labels[now].distance <= queue[i].distance <= labels[now].distance + 1
  {
    assert Enters(vs, labels, queue[i]) && Enters(vs, labels, queue[0]);
    if i > 0 && now != self {
      OthersAreOthers(self, queue, i);
    }
  }

  lemma OthersAreOthers(self: Id, queue: Queue, i: nat)
    requires OthersBehind(self, queue) && 0 < i < |queue|
    ensures queue[i].item.id != self
  {
    assert queue == [queue[0]] + queue[1..];
    assert queue[1..][i - 1] == queue[i] && queue[i] in multiset(queue[1..]);
    assert multiset(queue) - multiset{queue[0]} == multiset(queue[1..]);
  }

  ghost predicate RunningWritten(vs: Pointers, self: Id, vertices: map<Id, Vertex>, states: States, outs: Outs,
                                 labels: Labelling, queue: Queue)
    reads vs.Values
  {
    && Snapshot(vs, vertices, states, outs) && Unmoved(vs, states, outs) && Labelled(vs, labels)
    && Paused(vs, self, EdgesOf(vertices), labels, queue)
  }

  lemma RunningMeans(vs: Pointers, self: Id, vertices: map<Id, Vertex>, states: States, outs: Outs,
                     labels: Labelling, queue: Queue)
    ensures RunningWritten(vs, self, vertices, states, outs, labels, queue) <==>
              && Snapshot(vs, vertices, states, outs) && Unmoved(vs, states, outs) && Labelled(vs, labels)
              && Paused(vs, self, EdgesOf(vertices), labels, queue)
    ensures RunningWritten(vs, self, vertices, states, outs, labels, queue) ==> IsHeap(queue) && Named(vs)
  {
  }

  lemma EntryHolds(vs: Pointers, vertices: map<Id, Vertex>, states: States, outs: Outs, v: Vertice)
    requires Snapshot(vs, vertices, states, outs) && Unmoved(vs, states, outs) && v.id in vs && vs[v.id] == v
    ensures Leads(vs, v) && v.id in EdgesOf(vertices) && EdgesOf(vertices)[v.id] == v.edges.Keys
  {
  }

  /** One before the local vertex was visited, none afterwards. */
  function Ahead(self: Id, labels: Labelling): nat {
    if self in labels && labels[self].visited then 0 else 1
  }

  lemma AheadMeans(self: Id, labels: Labelling)
    ensures Ahead(self, labels) == 0 <==> self in labels && labels[self].visited
    ensures Ahead(self, labels) <= 1
  {
  }

  /** A vertex is visited and its edges followed. */
  method VisitWritten(vs: Pointers, queue: PriorityQueue<Vertice>, node: Vertice, ghost self: Id, ghost edges: Edges,
                      ghost labels: Labelling)
    returns (ghost labels': Labelling)
    requires Named(vs) && Labelled(vs, labels) && node.id in vs && vs[node.id] == node && Leads(vs, node)
    requires node.id in edges && edges[node.id] == node.edges.Keys && self in edges && node.id in labels
    requires queue.Valid()
    requires Following(vs, self, edges, Marked(labels, node.id), queue.heap, node.id, FoundBy(self, edges, node.id))
    requires Pushes(vs, Marked(labels, node.id), queue.pushed) && OthersBehind(self, queue.heap)
    requires queue.heap != [] && Ascending(queue.popped + [queue.heap[0]], 1)
    modifies vs.Values`nextHop, vs.Values`distance, vs.Values`visited, queue
    ensures Labelled(vs, labels') && self in labels' && labels'[self].visited && queue.Valid()
    ensures Paused(vs, self, edges, labels', queue.heap)
    ensures Orderly(vs, self, labels', queue.heap, queue.pushed, queue.popped)
    ensures node.id != self ==> |queue.heap| == |old(queue.heap)| - 1
  {
    hide *;
    FoundByMeans(self, edges, node.id);
    Mark(vs, node, labels);
    ghost var found := FoundBy(self, edges, node.id);
    ghost var first := queue.heap;
    labels' := ExpandWritten(vs, queue, node, self, edges, Marked(labels, node.id), found);
    FollowingMeans(vs, self, edges, labels', queue.heap, node.id, edges[self]);
    ghost var before := queue.heap;
    assert node.id != self ==> |before| == |multiset(before)| == |multiset(first)| == |first|;
    queue.Remove();
    ValidIsHeap(queue);
    PausedAgain(vs, self, edges, labels', before, node.id, queue.heap);
    OrderlyAgain(vs, self, labels', before, queue.heap, queue.pushed, queue.popped);
  }

  lemma FoundByMeans(self: Id, edges: Edges, now: Id)
    requires self in edges
    ensures FoundBy(self, edges, now) == if now == self then {} else edges[self]
  {
  }

  method RoundWritten(vs: Pointers, queue: PriorityQueue<Vertice>, ghost self: Id, ghost vertices: map<Id, Vertex>,
                      ghost states: States, ghost outs: Outs, ghost labels: Labelling)
    returns (ghost labels': Labelling)
    requires RunningWritten(vs, self, vertices, states, outs, labels, queue.heap)
    requires queue.Valid() && queue.heap != []
    requires Orderly(vs, self, labels, queue.heap, queue.pushed, queue.popped)
    modifies vs.Values`nextHop, vs.Values`distance, vs.Values`visited, queue
    ensures RunningWritten(vs, self, vertices, states, outs, labels', queue.heap) && queue.Valid()
    ensures Orderly(vs, self, labels', queue.heap, queue.pushed, queue.popped)
    ensures Ahead(self, labels') < Ahead(self, labels)
            || (Ahead(self, labels') == Ahead(self, labels) && |queue.heap| < |old(queue.heap)|)
  {
    hide *;
    RunningMeans(vs, self, vertices, states, outs, labels, queue.heap);
    ghost var edges, heap := EdgesOf(vertices), queue.heap;
    PausedVisits(vs, self, edges, labels, heap);
    OrderlyVisits(vs, self, edges, labels, heap, queue.pushed, queue.popped);
    var node := queue.heap[0].item;
    EntryHolds(vs, vertices, states, outs, node);
    LabelledMeans(vs, labels, node);
    AheadMeans(self, labels);
    if !node.visited {
      labels' := VisitWritten(vs, queue, node, self, edges, labels);
    } else {
      labels' := labels;
      ghost var popped := queue.popped;
      queue.Remove();
      ValidIsHeap(queue);
      PausedSkips(vs, self, edges, labels, heap, queue.heap);
      OrderlySkips(vs, self, labels, heap, queue.heap, queue.pushed, popped);
    }
    AheadMeans(self, labels');
    RunningMeans(vs, self, vertices, states, outs, labels', queue.heap);
  }

  method BeginWritten(vs: Pointers, local: Vertice, ghost edges: Edges) returns (queue: PriorityQueue<Vertice>)
    requires Named(vs) && local.id in vs && vs[local.id] == local && edges.Keys == vs.Keys && Graph(local.id, edges)
    modifies vs.Values`nextHop, vs.Values`distance, vs.Values`visited
    ensures fresh(queue) && queue.Valid() && Labelled(vs, Fresh(edges, local.id))
    ensures Paused(vs, local.id, edges, Fresh(edges, local.id), queue.heap)
    ensures Orderly(vs, local.id, Fresh(edges, local.id), queue.heap, queue.pushed, queue.popped)
  {
    Reset(vs, local, edges);
    assert LabelOf(local) == Fresh(edges, local.id)[local.id];
    assert Graph(local.id, edges) ==> local.id in edges;
    hide *;
    queue := QueueWith(Entry(local.distance, local.address, local));
    PausedStarts(vs, edges, local, queue.heap);
    OrderlyStarts(vs, edges, local, queue.heap);
  }

  /**
   The next-hop computation as written.  Whatever the graph, its table has every neighbour
   of the local vertex as its own next hop, and nothing else.
   */
  method ComputeRoutingTable(vs: Pointers, local: Vertice, ghost vertices: map<Id, Vertex>)
    returns (table: Table, ghost queue: PriorityQueue<Vertice>)
    requires Holds(vs, vertices) && local.id in vs && vs[local.id] == local && Graph(local.id, EdgesOf(vertices))
    modifies vs.Values`nextHop, vs.Values`distance, vs.Values`visited
    ensures Holds(vs, vertices)
    ensures table == CachedTable.Direct(local.id, EdgesOf(vertices))
    ensures OneHopDistances(vs, local.id, EdgesOf(vertices)) && Disciplined(vs, queue)
  {
    hide *;
    ghost var states, outs := Holding(vs, vertices);
    SnapshotMeans(vs, vertices, states, outs);
    var q := BeginWritten(vs, local, EdgesOf(vertices));
    queue := q;
    ghost var labels := Fresh(EdgesOf(vertices), local.id);
    RunningMeans(vs, local.id, vertices, states, outs, labels, q.heap);
    while q.heap != []
      invariant RunningWritten(vs, local.id, vertices, states, outs, labels, q.heap) && q.Valid()
      invariant Orderly(vs, local.id, labels, q.heap, q.pushed, q.popped)
      decreases Ahead(local.id, labels), |q.heap|
    {
      labels := RoundWritten(vs, q, local.id, vertices, states, outs, labels);
    }
    RunningMeans(vs, local.id, vertices, states, outs, labels, q.heap);
    DoneIsDirect(vs, local.id, EdgesOf(vertices), labels);
    OrderlyMeans(vs, local.id, labels, q.heap, q.pushed, q.popped);
    EndsDisciplined(vs, labels, q, 1);
    ReadOffOneHop(vs, local.id, EdgesOf(vertices), labels);
    table := CollectTable(vs, labels);
    StillHolding(vs, vertices, states, outs);
  }
}
